/** The prompt for the career-history writer: the answers of the career questionnaire are reshaped into a
    structured payload (lists split out of free text, achievements that were actually answered) and wrapped in a
    fixed system text and a user text that embeds the payload as JSON. */
module CareerPrompt {
  import opened Base
  import opened Strings
  import opened JsValue

  // ---- splitting free text into lists ----

  /** One `\r` at the end of a piece, left over from a CRLF line end, removed. */
  function DropCR(p: string): (r: string)
    ensures p != [] && p[|p| - 1] == '\r' ==> p == r + ['\r']
    ensures (p == [] || p[|p| - 1] != '\r') ==> r == p
  {
    if p != [] && p[|p| - 1] == '\r' then p[..|p| - 1] else p
  }

  /** The pieces between `\n`s, each but the last without the `\r` that came before its `\n`. */
  function LinesOf(pieces: seq<string>): (r: seq<string>)
    ensures |r| == |pieces|
  {
    if |pieces| <= 1 then pieces else [DropCR(pieces[0])] + LinesOf(pieces[1..])
  }

  /** `s.split(/\r?\n/)`. */
  function SplitLines(s: string): (r: seq<string>)
    ensures |r| >= 1
  {
    LinesOf(Split(s, '\n'))
  }

  /** `toLines`: the lines of the text, trimmed, blank ones dropped; no text gives no lines. */
  function ToLines(source: Option<string>): (r: seq<string>)
    ensures source.None? ==> r == []
    ensures forall l :: l in r ==> l != ""
  {
    Filter(NonEmpty, TrimAll(SplitLines(OrEmpty(source))))
  }

  /** `s.slice(0, n)`. */
  function Take<T>(s: seq<T>, n: nat): (r: seq<T>)
    ensures |s| <= n ==> r == s
    ensures |s| > n ==> r == s[..n]
  {
    if |s| <= n then s else s[..n]
  }

  /** `toList`: the comma-separated items of the text, trimmed, blank ones dropped, at most the first ten. */
  function ToList(source: Option<string>): (r: seq<string>)
    ensures source.None? ==> r == []
    ensures |r| <= 10
  {
    Take(CommaItems(OrEmpty(source)), 10)
  }

  /** A piece of text that trims to something. */
  predicate Filled(p: string)
  {
    !Blank(p)
  }

  /** A piece that ends in `\r` trims like the same piece without it. */
  lemma {:induction false} LinesTrimAlike(pieces: seq<string>)
    ensures TrimAll(LinesOf(pieces)) == TrimAll(pieces)
  {
    if |pieces| > 1 {
      LinesTrimAlike(pieces[1..]);
      var p := pieces[0];
      if p != [] && p[|p| - 1] == '\r' {
        TrimDropsTrailingSpace(DropCR(p), '\r');
      }
      assert TrimAll(LinesOf(pieces))[0] == TrimAll(pieces)[0];
      assert TrimAll(LinesOf(pieces))[1..] == TrimAll(LinesOf(pieces[1..]));
      assert TrimAll(pieces)[1..] == TrimAll(pieces[1..]);
    }
  }

  /** Splitting on `\r?\n` and trimming is the same as splitting on `\n` and trimming: the `\r` of a CRLF
      line end is whitespace that `trim` removes anyway. */
  lemma ToLinesIgnoresCR(source: Option<string>)
    ensures ToLines(source) == Filter(NonEmpty, TrimAll(Split(OrEmpty(source), '\n')))
  {
    LinesTrimAlike(Split(OrEmpty(source), '\n'));
  }

  /** Every line kept is non-empty, trimmed and a single line. */
  lemma ToLinesClean(source: Option<string>)
    ensures forall l :: l in ToLines(source) ==> l != "" && Trimmed(l) && '\n' !in l
  {
    ToLinesIgnoresCR(source);
    TrimAllClean(Split(OrEmpty(source), '\n'), '\n');
  }

  /** A text that splits into pieces trimming like `lines`, which all trim to something, gives the trimmed
      lines back. */
  lemma ToLinesOfPieces(text: string, pieces: seq<string>, lines: seq<string>)
    requires Split(text, '\n') == pieces && TrimAll(pieces) == TrimAll(lines)
    requires forall k :: 0 <= k < |lines| ==> Filled(lines[k])
    ensures ToLines(Some(text)) == TrimAll(lines)
  {
    ToLinesIgnoresCR(Some(text));
    FilterAll(NonEmpty, TrimAll(lines));
  }

  /** Lines written one per row come back as the trimmed lines, in order. */
  lemma ToLinesOfJoin(lines: seq<string>)
    requires lines != [] && forall k :: 0 <= k < |lines| ==> '\n' !in lines[k] && Filled(lines[k])
    ensures ToLines(Some(Join(lines, "\n"))) == TrimAll(lines)
  {
    SplitOfJoin(lines, '\n');
    ToLinesOfPieces(Join(lines, "\n"), lines, lines);
  }

  /** Each line with a `\r` appended, as a CRLF text has them before splitting on `\n`. */
  function WithCR(lines: seq<string>): (r: seq<string>)
    ensures |r| == |lines|
  {
    if |lines| <= 1 then lines else [lines[0] + ['\r']] + WithCR(lines[1..])
  }

  lemma {:induction false} JoinWithCR(lines: seq<string>)
    requires lines != []
    ensures Join(lines, "\r\n") == Join(WithCR(lines), "\n")
  {
    if |lines| > 1 {
      JoinWithCR(lines[1..]);
      var w := WithCR(lines);
      assert w[1..] == WithCR(lines[1..]);
      AppendAssoc(lines[0], ['\r'], ['\n']);
      AppendAssoc(lines[0] + ['\r'] + ['\n'], [], Join(w[1..], "\n"));
      assert "\r\n" == ['\r'] + ['\n'];
      AppendAssoc(lines[0], "\r\n", Join(lines[1..], "\r\n"));
    }
  }

  lemma {:induction false} TrimWithCR(lines: seq<string>)
    ensures TrimAll(WithCR(lines)) == TrimAll(lines)
  {
    if |lines| > 1 {
      TrimWithCR(lines[1..]);
      var w := WithCR(lines);
      TrimDropsTrailingSpace(lines[0], '\r');
      assert TrimAll(w)[0] == TrimAll(lines)[0];
      assert TrimAll(w)[1..] == TrimAll(WithCR(lines[1..]));
      assert TrimAll(lines)[1..] == TrimAll(lines[1..]);
    }
  }

  lemma {:induction false} WithCRSingleLines(lines: seq<string>)
    requires forall k :: 0 <= k < |lines| ==> '\n' !in lines[k]
    ensures forall k :: 0 <= k < |lines| ==> '\n' !in WithCR(lines)[k]
  {
    if |lines| > 1 {
      WithCRSingleLines(lines[1..]);
      var w := WithCR(lines);
      assert w[0] == lines[0] + ['\r'];
      forall k | 1 <= k < |lines|
        ensures '\n' !in w[k]
      {
        assert w[k] == WithCR(lines[1..])[k - 1];
      }
    }
  }

  /** A CRLF text splits on `\n` into its lines with their `\r`s. */
  lemma CRLFPieces(lines: seq<string>)
    requires lines != [] && forall k :: 0 <= k < |lines| ==> '\n' !in lines[k]
    ensures Split(Join(lines, "\r\n"), '\n') == WithCR(lines)
    ensures TrimAll(WithCR(lines)) == TrimAll(lines)
  {
    JoinWithCR(lines);
    TrimWithCR(lines);
    WithCRSingleLines(lines);
    SplitOfJoin(WithCR(lines), '\n');
  }

  /** A text with CRLF line ends gives the same lines as one with LF line ends. */
  lemma ToLinesOfCRLF(lines: seq<string>)
    requires lines != [] && forall k :: 0 <= k < |lines| ==> '\n' !in lines[k] && Filled(lines[k])
    ensures ToLines(Some(Join(lines, "\r\n"))) == TrimAll(lines)
  {
    CRLFPieces(lines);
    ToLinesOfPieces(Join(lines, "\r\n"), WithCR(lines), lines);
  }

  /** Every item kept is non-empty, trimmed and holds no comma, and there are at most ten. */
  lemma ToListClean(source: Option<string>)
    ensures |ToList(source)| <= 10
    ensures forall x :: x in ToList(source) ==> x != "" && Trimmed(x) && ',' !in x
  {
    CommaItemsClean(OrEmpty(source));
    assert forall x :: x in ToList(source) ==> x in CommaItems(OrEmpty(source));
  }

  /** Comma-separated items, with any spacing around them, come back trimmed and in order, cut at ten. */
  lemma ToListOfJoin(items: seq<string>)
    requires items != [] && forall k :: 0 <= k < |items| ==> ',' !in items[k] && Filled(items[k])
    ensures ToList(Some(Join(items, ","))) == Take(TrimAll(items), 10)
  {
    CommaItemsOfJoin(items);
  }

  // ---- the answers ----

  /** A text answer: the string, or `None` when the field is missing. */
  function TextOf(answers: Value, key: string): (r: Option<string>)
    ensures r.Some? <==> Get(answers, key).Str?
  {
    if Get(answers, key).Str? then Some(Get(answers, key).s) else None
  }

  /** Strings as a JSON array. */
  function Strs(xs: seq<string>): (r: Value)
    ensures r.Arr? && |r.items| == |xs| && forall k :: 0 <= k < |xs| ==> r.items[k] == Str(xs[k])
  {
    Arr(seq(|xs|, k requires 0 <= k < |xs| => Str(xs[k])))
  }

  /** The answer field of achievement `n` with the given suffix, such as `ach2_role`. */
  function AchKey(n: char, suffix: string): string
  {
    "ach" + [n] + "_" + suffix
  }

  /** The six parts of an achievement, in the order the payload lists them. */
  const ItemKeys: seq<string> := ["title", "goal", "actions", "result", "metrics", "role"]

  /** `answers[key] ?? ''`. */
  function AnswerOr(answers: Value, key: string): (r: Value)
    ensures !IsNullish(r)
    ensures Get(answers, key).Str? ==> r == Get(answers, key)
  {
    Coalesce(Get(answers, key), Str(""))
  }

  /** Achievement `n` as the payload shapes it, missing parts as the empty string. */
  function Item(answers: Value, n: char): (r: Value)
    ensures r.Obj? && Keys(r.fields) == ItemKeys
    ensures forall k :: 0 <= k < 6 ==> r.fields[k].val == AnswerOr(answers, AchKey(n, ItemKeys[k]))
  {
    Obj(seq(6, k requires 0 <= k < 6 => Field(ItemKeys[k], AnswerOr(answers, AchKey(n, ItemKeys[k])))))
  }

  /** Some part of the achievement is a string with more than whitespace in it. */
  predicate HasContent(item: Value)
    ensures HasContent(item) ==> item.Obj? && item.fields != []
    ensures item.Obj? && (forall k :: 0 <= k < |item.fields| ==> !item.fields[k].val.Str?) ==> !HasContent(item)
  {
    item.Obj? && exists k :: 0 <= k < |item.fields| && item.fields[k].val.Str? && Filled(item.fields[k].val.s)
  }

  /** The three achievements in order, before the unanswered ones are dropped. */
  function Items(answers: Value): (r: seq<Value>)
    ensures |r| == 3
  {
    [Item(answers, '1'), Item(answers, '2'), Item(answers, '3')]
  }

  /** The achievements that were answered, in order. */
  function Achievements(answers: Value): (r: seq<Value>)
    ensures |r| <= 3
    ensures forall x :: x in r ==> HasContent(x)
  {
    Filter(HasContent, Items(answers))
  }

  /** Achievement `n` was answered: one of its six answer fields is a string that trims to something. */
  predicate Answered(answers: Value, n: char)
  {
    exists k :: 0 <= k < 6 && Get(answers, AchKey(n, ItemKeys[k])).Str?
                && Filled(Get(answers, AchKey(n, ItemKeys[k])).s)
  }

  lemma ContentIffAnswered(answers: Value, n: char)
    ensures HasContent(Item(answers, n)) <==> Answered(answers, n)
  {
    var item := Item(answers, n);
    if HasContent(item) {
      var k :| 0 <= k < |item.fields| && item.fields[k].val.Str? && Filled(item.fields[k].val.s);
      assert Get(answers, AchKey(n, ItemKeys[k])).Str?;
    }
    if Answered(answers, n) {
      var k :| 0 <= k < 6 && Get(answers, AchKey(n, ItemKeys[k])).Str?
               && Filled(Get(answers, AchKey(n, ItemKeys[k])).s);
      assert item.fields[k].val.Str? && Filled(item.fields[k].val.s);
    }
  }

  /** An achievement is passed on exactly when it was answered; at most three are. */
  lemma AchievementKeptIff(answers: Value, n: char)
    requires n == '1' || n == '2' || n == '3'
    ensures Item(answers, n) in Achievements(answers) <==> Answered(answers, n)
    ensures |Achievements(answers)| <= 3
  {
    ContentIffAnswered(answers, n);
    assert Item(answers, n) in Items(answers);
  }

  /** An achievement has the six parts, none of them missing. */
  lemma ItemComplete(answers: Value, n: char)
    ensures Keys(Item(answers, n).fields) == ItemKeys
    ensures forall f :: f in Item(answers, n).fields ==> !IsNullish(f.val)
  {
  }

  /** Every achievement passed on has the six parts, none of them missing. */
  lemma AchievementsComplete(answers: Value)
    ensures forall x :: x in Achievements(answers) ==>
              x.Obj? && Keys(x.fields) == ItemKeys && forall f :: f in x.fields ==> !IsNullish(f.val)
  {
    ItemComplete(answers, '1');
    ItemComplete(answers, '2');
    ItemComplete(answers, '3');
    assert forall x :: x in Achievements(answers) ==> x in Items(answers);
  }

  /** With all three answered they are all passed on, in order. */
  lemma AchievementsAll(answers: Value)
    requires Answered(answers, '1') && Answered(answers, '2') && Answered(answers, '3')
    ensures Achievements(answers) == Items(answers)
  {
    ContentIffAnswered(answers, '1');
    ContentIffAnswered(answers, '2');
    ContentIffAnswered(answers, '3');
    FilterAll(HasContent, Items(answers));
  }

  /** With none answered, none is passed on. */
  lemma AchievementsNone(answers: Value)
    requires !Answered(answers, '1') && !Answered(answers, '2') && !Answered(answers, '3')
    ensures Achievements(answers) == []
  {
    ContentIffAnswered(answers, '1');
    ContentIffAnswered(answers, '2');
    ContentIffAnswered(answers, '3');
    FilterNone(HasContent, Items(answers));
  }

  // ---- the payload ----

  /** The keys of the employment period. */
  const PeriodKeys: seq<string> := ["startYm", "endYm", "isCurrent"]

  /** The employment period; `isCurrent` is coerced to a boolean. */
  function Period(a: Value): (r: Value)
    ensures r.Obj?
  {
    Record(PeriodKeys, PeriodValues(a))
  }

  function PeriodValues(a: Value): (r: seq<Value>)
    ensures |r| == |PeriodKeys|
  {
    [Get(a, "startYm"), Get(a, "endYm"), Bool(Truthy(Get(a, "isCurrent")))]
  }

  /** What `buildCareerPrompt` derives from the answers before it lays out the payload. */
  datatype Derived = Derived(responsibilities: seq<string>, tools: seq<string>, deliverables: seq<string>,
                             achievements: seq<Value>)

  function Derive(a: Value): (r: Derived)
    ensures |r.tools| <= 10 && |r.deliverables| <= 3 && |r.achievements| <= 3
  {
    ToListClean(TextOf(a, "toolsAndSkills"));
    AchievementKeptIff(a, '1');
    Derived(ToLines(TextOf(a, "responsibilities")), ToList(TextOf(a, "toolsAndSkills")),
            Take(ToLines(TextOf(a, "deliverables")), 3), Achievements(a))
  }

  /** The keys of the latest position. */
  const PositionKeys: seq<string> := [
    "companyName", "department", "roleTitle", "employmentType", "period", "industry", "teamSize", "directReports",
    "responsibilities", "tools", "deliverables"
  ]

  function PositionValues(a: Value, d: Derived): (r: seq<Value>)
    ensures |r| == |PositionKeys|
  {
    [ Get(a, "companyName"), Get(a, "department"), Get(a, "roleTitle"), Get(a, "employmentType"), Period(a),
      Get(a, "industry"), Get(a, "teamSize"), Get(a, "directReports"), Strs(d.responsibilities), Strs(d.tools),
      Strs(d.deliverables) ]
  }

  /** The latest position with its period, team and the three lists. */
  function Position(a: Value, d: Derived): (r: Value)
    ensures r.Obj?
  {
    Record(PositionKeys, PositionValues(a, d))
  }

  /** What the writer is aiming for next, with the value to offer as a nested object. */
  function Intent(a: Value): (r: Value)
    ensures r.Obj?
  {
    Record(["targetRoles", "targetIndustries", "workStyle", "value"],
           [ Get(a, "targetRoles"), Get(a, "targetIndustries"), Get(a, "workStyle"),
             Record(["target", "what", "level", "proof"],
                    [Get(a, "valueTarget"), Get(a, "valueWhat"), Get(a, "valueLevel"), Get(a, "proof")]) ])
  }

  /** The keys of the payload. */
  const PayloadKeys: seq<string> := ["summary", "position", "achievements", "intent"]

  function PayloadValues(a: Value, d: Derived): (r: seq<Value>)
    ensures |r| == |PayloadKeys|
  {
    [Get(a, "summary"), Position(a, d), Arr(d.achievements), Intent(a)]
  }

  /** The payload laid out around what was derived from the answers. */
  function PayloadOf(a: Value, d: Derived): (r: Value)
    ensures r.Obj?
  {
    Record(PayloadKeys, PayloadValues(a, d))
  }

  /** The structured payload handed to the writer. */
  function Payload(a: Value): (r: Value)
    ensures r.Obj? && Keys(r.fields) == PayloadKeys
  {
    PayloadOf(a, Derive(a))
  }

  lemma PayloadPosition(a: Value, d: Derived)
    ensures Get(PayloadOf(a, d), "position") == Position(a, d)
  {
    GetRecord(PayloadKeys, PayloadValues(a, d), 1);
  }

  lemma PayloadAchievements(a: Value, d: Derived)
    ensures Get(PayloadOf(a, d), "achievements") == Arr(d.achievements)
  {
    GetRecord(PayloadKeys, PayloadValues(a, d), 2);
  }

  lemma PositionPeriod(a: Value, d: Derived)
    ensures Get(Position(a, d), "period") == Period(a)
  {
    GetRecord(PositionKeys, PositionValues(a, d), 4);
  }

  lemma PositionResponsibilities(a: Value, d: Derived)
    ensures Get(Position(a, d), "responsibilities") == Strs(d.responsibilities)
  {
    GetRecord(PositionKeys, PositionValues(a, d), 8);
  }

  lemma PositionTools(a: Value, d: Derived)
    ensures Get(Position(a, d), "tools") == Strs(d.tools)
  {
    GetRecord(PositionKeys, PositionValues(a, d), 9);
  }

  lemma PositionDeliverables(a: Value, d: Derived)
    ensures Get(Position(a, d), "deliverables") == Strs(d.deliverables)
  {
    GetRecord(PositionKeys, PositionValues(a, d), 10);
  }

  lemma PeriodCurrent(a: Value)
    ensures Get(Period(a), "isCurrent") == Bool(Truthy(Get(a, "isCurrent")))
  {
    GetRecord(PeriodKeys, PeriodValues(a), 2);
  }

  /** `position.period.isCurrent` reads the coerced flag, and the position's lists are the derived ones. */
  lemma PayloadOfReads(a: Value, d: Derived)
    ensures Get(Get(Get(PayloadOf(a, d), "position"), "period"), "isCurrent") == Bool(Truthy(Get(a, "isCurrent")))
    ensures Get(Get(PayloadOf(a, d), "position"), "responsibilities") == Strs(d.responsibilities)
    ensures Get(Get(PayloadOf(a, d), "position"), "tools") == Strs(d.tools)
    ensures Get(Get(PayloadOf(a, d), "position"), "deliverables") == Strs(d.deliverables)
    ensures Get(PayloadOf(a, d), "achievements") == Arr(d.achievements)
  {
    PayloadPosition(a, d);
    PayloadAchievements(a, d);
    PositionPeriod(a, d);
    PositionResponsibilities(a, d);
    PositionTools(a, d);
    PositionDeliverables(a, d);
    PeriodCurrent(a);
  }

  /** `period.isCurrent` is always a boolean: the truth of the answer, false when it is missing. */
  lemma PeriodFlag(a: Value)
    ensures Get(Get(Get(Payload(a), "position"), "period"), "isCurrent") == Bool(Truthy(Get(a, "isCurrent")))
    ensures Get(a, "isCurrent").Undefined? ==> Get(Get(Get(Payload(a), "position"), "period"), "isCurrent") == Bool(false)
  {
    PayloadOfReads(a, Derive(a));
  }

  /** The lists in the payload are the split-out answers and the answered achievements, with at most ten
      tools, three deliverables and three achievements. */
  lemma PayloadLists(a: Value)
    ensures Get(Get(Payload(a), "position"), "responsibilities") == Strs(ToLines(TextOf(a, "responsibilities")))
    ensures Get(Get(Payload(a), "position"), "tools") == Strs(ToList(TextOf(a, "toolsAndSkills")))
    ensures Get(Get(Payload(a), "position"), "deliverables") == Strs(Take(ToLines(TextOf(a, "deliverables")), 3))
    ensures Get(Payload(a), "achievements") == Arr(Achievements(a))
  {
    PayloadOfReads(a, Derive(a));
  }

  // ---- the prompt ----

  datatype Prompt = Prompt(system: string, user: string, payload: Value)

  /** The three fixed lines of the system text. */
  const SystemLines: seq<string> := [
    "あなたは日本の人事・採用文脈に最適化された職務経歴書ライターです。",
    "箇条書きは・で統一し、冗長表現を避け、事実と数値に基づき簡潔に記述します。",
    "応募先に合わせて要約→職務概要→責務→成果→スキルの順で構成し、語尾や表記ゆれを統一します。"
  ]

  /** The lines that open the user text, before the payload. */
  const UserHead: seq<string> := ["# 入力データ（構造化）", "```json"]

  /** The lines that close the user text, after the payload. */
  const UserTail: seq<string> := [
    "```",
    "",
    "# 出力要件",
    "- 日本語、A4想定、読み手が一次スクリーニングで判断しやすい密度で記述",
    "- 最初に3〜5行の職務要約、その後に直近ポジションの職務概要、主要責務、成果(最大3)、スキルまとめ",
    "- 成果は「目標→行動→結果→数値」で簡潔に、役割(IC/Lead/Mgr)を明記"
  ]

  /** `buildCareerPrompt(answers)`; `stringify` stands for `JSON.stringify(·, null, 2)`. */
  function BuildCareerPrompt(answers: Value, stringify: Value -> string): (r: Prompt)
    ensures r.payload == Payload(answers)
  {
    var payload := Payload(answers);
    Prompt(Join(SystemLines, "\n"), Join(UserHead + [stringify(payload)] + UserTail, "\n"), payload)
  }

  /** The system text does not depend on the answers: it is always the three fixed lines, one per line. */
  lemma SystemFixed(a: Value, b: Value, s: Value -> string, t: Value -> string)
    ensures BuildCareerPrompt(a, s).system == BuildCareerPrompt(b, t).system == Join(SystemLines, "\n")
    ensures |SystemLines| == 3
  {
  }

  /** The user text is the fixed head, the payload's JSON on the lines after it, and the fixed tail. */
  lemma UserEmbedsPayload(a: Value, stringify: Value -> string)
    ensures BuildCareerPrompt(a, stringify).user
            == Join(UserHead, "\n") + "\n" + stringify(Payload(a)) + "\n" + Join(UserTail, "\n")
  {
    JoinAround(UserHead, stringify(Payload(a)), UserTail, "\n");
  }
}
