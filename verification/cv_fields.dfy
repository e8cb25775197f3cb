/** The career-history questions of the form and their "generate" button: the five answers become a prompt,
    the text the model answers with is cut down to the part from its first `{` to its last `}`, parsed as
    JSON, and its `summary`, `details`, `skills` and `pr` fill the four generated fields. The call to the
    text generator and `JSON.parse` are parameters here. */
module CvFields {
  import opened Base
  import opened Strings
  import opened JsValue

  // ---- the prompt ----

  /** `` `Q${i+1}: ${v || ""}` ``. */
  function QuestionLine(i: nat, v: string): string
  {
    "Q" + NatToString(i + 1) + ": " + v
  }

  /** The five answer lines, in order. */
  function QuestionLines(answers: seq<string>): (r: seq<string>)
    requires |answers| == 5
    ensures |r| == 5 && forall i :: 0 <= i < 5 ==> r[i] == QuestionLine(i, answers[i])
  {
    seq(5, i requires 0 <= i < 5 => QuestionLine(i, answers[i]))
  }

  /** The fixed instruction: output the summary, details, skills and PR as JSON with those four keys. */
  const Instruction: string :=
    "以下の回答を基に、職務経歴書向けの「職務要約」「職務内容」「活かせる経験・知識」「自己PR」をJSONで出力してください。\n"
    + "キーは summary, details, skills, pr の4つにしてください。日本語で簡潔に。"

  /** The prompt: the instruction, a newline, then the answer lines joined by newlines. */
  function CvPrompt(answers: seq<string>): (r: string)
    requires |answers| == 5
    ensures |r| > |Instruction| && r[..|Instruction|] == Instruction && r[|Instruction|] == '\n'
  {
    Instruction + "\n" + Join(QuestionLines(answers), "\n")
  }

  lemma NatToStringSmall(n: nat)
    requires 1 <= n <= 5
    ensures NatToString(n) == [DigitChar(n)]
  {
  }

  /** The prompt ends with exactly five lines, `Q1: ` to `Q5: ` each followed by its answer, in order. */
  lemma PromptLines(answers: seq<string>)
    requires |answers| == 5
    ensures CvPrompt(answers) == Instruction + "\n" + Join(QuestionLines(answers), "\n")
    ensures forall i :: 0 <= i < 5 ==> QuestionLines(answers)[i] == "Q" + [DigitChar(i + 1)] + ": " + answers[i]
  {
    forall i | 0 <= i < 5
      ensures QuestionLines(answers)[i] == "Q" + [DigitChar(i + 1)] + ": " + answers[i]
    {
      NatToStringSmall(i + 1);
    }
  }

  /** Answers without line breaks can be read back from the prompt's last five lines. */
  lemma AnswersRecoverable(answers: seq<string>)
    requires |answers| == 5 && forall i :: 0 <= i < 5 ==> '\n' !in answers[i]
    ensures Split(Join(QuestionLines(answers), "\n"), '\n') == QuestionLines(answers)
    ensures forall i :: 0 <= i < 5 ==> QuestionLines(answers)[i][|QuestionLine(i, "")|..] == answers[i]
  {
    var lines := QuestionLines(answers);
    forall i | 0 <= i < 5
      ensures '\n' !in lines[i] && lines[i][|QuestionLine(i, "")|..] == answers[i]
    {
      NatToStringSmall(i + 1);
      assert lines[i] == QuestionLine(i, "") + answers[i];
    }
    SplitOfJoin(lines, '\n');
  }

  // ---- cutting the answer down to its JSON object ----

  /** From the first `{` through the last `}` when both are there in that order, otherwise `{}`. */
  function JsonSlice(raw: string): (r: string)
    ensures |r| >= 2 && r[0] == '{' && r[|r| - 1] == '}'
  {
    var start := IndexOf(raw, '{');
    var end := LastIndexOf(raw, '}');
    if start >= 0 && end >= start then raw[start..end + 1] else "{}"
  }

  /** Text around an object, with no `{` before it and no `}` after it, is cut away, leaving the object. */
  lemma SliceStripsAround(pre: string, obj: string, post: string)
    requires |obj| >= 2 && obj[0] == '{' && obj[|obj| - 1] == '}'
    requires '{' !in pre && '}' !in post
    ensures JsonSlice(pre + obj + post) == obj
  {
    var raw := pre + obj + post;
    assert raw[|pre|] == '{';
    assert raw[..|pre|] == pre;
    assert IndexOf(raw, '{') == |pre| by {
      assert raw[..|pre| + 1] == pre + ['{'];
      assert forall k :: 0 <= k < |pre| ==> raw[k] == pre[k];
    }
    var e := |pre| + |obj| - 1;
    assert raw[e] == '}';
    assert raw[e + 1..] == post;
    assert LastIndexOf(raw, '}') == e by {
      assert raw[e..] == ['}'] + post;
    }
    assert raw[|pre|..e + 1] == obj;
  }

  /** Without a `{`, or with no `}` after the first `{` (none at all, or the last one before it), the
      slice is the empty object. */
  lemma SliceFallback(raw: string)
    requires '{' !in raw || LastIndexOf(raw, '}') < IndexOf(raw, '{')
    ensures JsonSlice(raw) == "{}"
  {
  }

  // ---- the generate button ----

  /** `parsed.key ?? ""`. */
  function Generated(parsed: Value, key: string): (r: Value)
    ensures !IsNullish(r)
    ensures !IsNullish(Get(parsed, key)) ==> r == Get(parsed, key)
    ensures IsNullish(Get(parsed, key)) ==> r == Str("")
  {
    Coalesce(Get(parsed, key), Str(""))
  }

  const LoadingText: string := "AIで職務経歴書要素を生成中です..."

  /** The part of the form state the button touches: the four generated fields and the page's loading
      indicator, with every value `setLoading` was given, in order. */
  class CvForm {
    var summary: Value
    var details: Value
    var skills: Value
    var pr: Value
    var loadingText: string
    var loadingLog: seq<bool>

    constructor ()
      ensures summary == details == skills == pr == Str("") && loadingText == "" && loadingLog == []
    {
      summary, details, skills, pr := Str(""), Str(""), Str(""), Str("");
      loadingText, loadingLog := "", [];
    }

    method SetLoading(on: bool)
      modifies this
      ensures loadingLog == old(loadingLog) + [on]
      ensures summary == old(summary) && details == old(details) && skills == old(skills) && pr == old(pr)
      ensures loadingText == old(loadingText)
    {
      loadingLog := loadingLog + [on];
    }

    /** `handleGenerateCV()`, given what the generator answers (`None` when it fails) and `JSON.parse`. When
        the answer parses to something other than `null` or `undefined` the four fields take its values, else
        they are left as they were; the loading indicator is switched on and then off in every case. */
    method GenerateCv(answers: seq<string>, generate: string -> Option<string>, parse: string -> Option<Value>)
      returns (ok: bool)
      requires |answers| == 5
      modifies this
      ensures loadingText == LoadingText && loadingLog == old(loadingLog) + [true, false]
      ensures var raw := generate(CvPrompt(answers));
              ok <==> raw.Some? && parse(JsonSlice(raw.value)).Some? && !IsNullish(parse(JsonSlice(raw.value)).value)
      ensures ok ==> var parsed := parse(JsonSlice(generate(CvPrompt(answers)).value)).value;
                     summary == Generated(parsed, "summary") && details == Generated(parsed, "details")
                     && skills == Generated(parsed, "skills") && pr == Generated(parsed, "pr")
      ensures !ok ==> summary == old(summary) && details == old(details) && skills == old(skills) && pr == old(pr)
    {
      var prompt := CvPrompt(answers);
      loadingText := LoadingText;
      SetLoading(true);
      ok := false;
      var raw := generate(prompt);
      if raw.Some? {
        var parsed := parse(JsonSlice(raw.value));
        if parsed.Some? && !IsNullish(parsed.value) {
          summary := Generated(parsed.value, "summary");
          details := Generated(parsed.value, "details");
          skills := Generated(parsed.value, "skills");
          pr := Generated(parsed.value, "pr");
          ok := true;
        }
      }
      SetLoading(false);
    }
  }
}
