/** The `/api/pdf` handler of the pages router: it accepts a POST whose body names a document type, a
    template and the data, normalises the type and the template, picks a renderer from a two-entry table
    (falling back to a debug renderer), hands it the data with a `__meta` record and a `name`, and answers
    with the PDF bytes. The response object is changed in place, as the framework's `res` is. */
module PdfApi {
  import opened Base
  import opened Strings
  import opened JsValue

  // ---- normalising the request ----

  /** `norm(v)`: the empty string for null or undefined, otherwise `String(v)` trimmed and lower-cased;
      `None` where `String(v)` throws (an array holding a symbol). */
  function Norm(v: Value): (r: Option<string>)
    ensures IsNullish(v) ==> r == Some("")
    ensures r.Some? ==> Trimmed(r.value) && Lower(r.value)
    ensures v.Str? ==> r == Some(ToLower(Trim(v.s)))
  {
    if IsNullish(v) then Some("")
    else
      match StringOf(v)
      case Some(s) =>
        LowerKeepsTrimmed(Trim(s));
        Some(ToLower(Trim(s)))
      case None => None
  }

  /** Trimmed lower-case text normalises to itself. */
  lemma NormFixed(t: string)
    requires Trimmed(t) && Lower(t)
    ensures Norm(Str(t)) == Some(t)
  {
    TrimNoSpaceEnds(t);
    LowerFixed(t);
  }

  /** Normalising normalised text changes nothing. */
  lemma NormIdempotent(v: Value)
    requires Norm(v).Some?
    ensures Norm(Str(Norm(v).value)) == Norm(v)
  {
    NormFixed(Norm(v).value);
  }

  /** `normalizeType(v)`: `cv` for anything that normalises to `cv`, `resume` for everything else. */
  function NormalizeType(v: Value): (r: Option<string>)
    ensures r.Some? <==> Norm(v).Some?
    ensures r.Some? ==> (r.value == "cv" <==> Norm(v) == Some("cv"))
    ensures r.Some? ==> r.value == "cv" || r.value == "resume"
  {
    match Norm(v)
    case Some(s) => Some(if s == "cv" then "cv" else "resume")
    case None => None
  }

  /** The spellings that mean the basic template. */
  predicate BasicAlias(s: string)
  {
    s == "" || s == "true" || s == "false" || s == "default" || s == "std" || s == "standard"
  }

  /** `normalizeTemplate(v)`: `basic` for an alias of it, the normalised text otherwise. */
  function NormalizeTemplate(v: Value): (r: Option<string>)
    ensures r.Some? <==> Norm(v).Some?
    ensures r.Some? ==> r.value != "" && !BasicAlias(r.value) && Trimmed(r.value) && Lower(r.value)
    ensures r.Some? && !BasicAlias(Norm(v).value) ==> r == Norm(v)
  {
    match Norm(v)
    case Some(s) => Some(if BasicAlias(s) then "basic" else s)
    case None => None
  }

  /** A normalised type normalises to itself. */
  lemma TypeIdempotent(v: Value)
    requires Norm(v).Some?
    ensures NormalizeType(Str(NormalizeType(v).value)) == NormalizeType(v)
  {
    if Norm(v) == Some("cv") {
      NormIdempotent(v);
    } else {
      var t := "resume";
      assert forall i :: 0 <= i < |t| ==> t[i] in "resum";
      NormFixed(t);
    }
  }

  /** A normalised template normalises to itself. */
  lemma TemplateIdempotent(v: Value)
    requires Norm(v).Some?
    ensures NormalizeTemplate(Str(NormalizeTemplate(v).value)) == NormalizeTemplate(v)
  {
    var m := NormalizeTemplate(v).value;
    TrimNoSpaceEnds(m);
    LowerFixed(m);
  }

  // ---- choosing the renderer ----

  /** The three renderers the table can give. */
  datatype Renderer = ResumeBasic | CvBasic | Debug

  /** `table[key] ?? renderDebug`. */
  function Choose(key: string): (r: Renderer)
    ensures r == ResumeBasic <==> key == "resume:basic"
    ensures r == CvBasic <==> key == "cv:basic"
  {
    if key == "resume:basic" then ResumeBasic
    else if key == "cv:basic" then CvBasic
    else Debug
  }

  lemma OnlyColon(x: string, y: string, i: nat)
    requires ':' !in x && ':' !in y && i < |x| + 1 + |y|
    ensures (x + ":" + y)[i] == ':' <==> i == |x|
  {
    if i < |x| {
      assert (x + ":" + y)[i] == x[i];
    } else if i > |x| {
      assert (x + ":" + y)[i] == y[i - |x| - 1];
    }
  }

  /** A key `a:b` equals a key with one colon only when the parts match. */
  lemma KeySplit(a: string, b: string, x: string, y: string)
    requires ':' !in x && ':' !in y
    ensures a + ":" + b == x + ":" + y <==> a == x && b == y
  {
    if a + ":" + b == x + ":" + y {
      OnlyColon(x, y, |a|);
      assert a == (a + ":" + b)[..|a|];
      assert x == (x + ":" + y)[..|x|];
      assert b == (a + ":" + b)[|a| + 1..];
      assert y == (x + ":" + y)[|x| + 1..];
    }
  }

  /** The basic renderers are chosen exactly for type `resume` or `cv` with template `basic`, and the debug
      renderer for every other pair, whatever colons the parts hold. */
  lemma ChooseKey(t: string, template: string)
    ensures Choose(t + ":" + template) == ResumeBasic <==> t == "resume" && template == "basic"
    ensures Choose(t + ":" + template) == CvBasic <==> t == "cv" && template == "basic"
    ensures Choose(t + ":" + template) == Debug <==> !((t == "resume" || t == "cv") && template == "basic")
  {
    KeySplit(t, template, "resume", "basic");
    KeySplit(t, template, "cv", "basic");
  }

  // ---- the renderer's input ----

  /** `(typeof data === "object" && data) || {}` spread into a literal: an object's own fields, an array's
      elements under their indices, nothing for anything else. */
  function Spread(data: Value): (r: seq<Field>)
    ensures data.Obj? ==> r == data.fields
    ensures !data.Obj? && !data.Arr? ==> r == []
  {
    if data.Obj? then data.fields
    else if data.Arr? then seq(|data.items|, i requires 0 <= i < |data.items| => Field(IntToString(i), data.items[i]))
    else []
  }

  const MetaKeys: seq<string> := ["type", "template", "generatedAt"]

  /** `{ type, template, generatedAt }`, the time passed in. */
  function Meta(t: Value, template: Value, now: string): (r: Value)
    ensures r.Obj? && Keys(r.fields) == MetaKeys
  {
    var r := Record(MetaKeys, [t, template, Str(now)]);
    assert forall i :: 0 <= i < 3 ==> r.fields[i].key == MetaKeys[i];
    r
  }

  /** `data.name ?? body.name ?? ""`. */
  function NameOf(data: Value, body: Value): (r: Value)
    ensures !IsNullish(r)
  {
    Coalesce(Coalesce(Get(data, "name"), Get(body, "name")), Str(""))
  }

  /** `payloadForTemplate`: the data's fields, then `__meta` and `name`, each replacing a field of the same
      name where the data has one. */
  function TemplateInput(data: Value, body: Value, meta: Value): (r: Value)
    ensures r.Obj?
  {
    Obj(SetField(SetField(Spread(data), "__meta", meta), "name", NameOf(data, body)))
  }

  /** The input carries the given `__meta`, whatever the data held under that name. */
  lemma InputMeta(data: Value, body: Value, meta: Value)
    ensures Get(TemplateInput(data, body, meta), "__meta") == meta
  {
    var f := SetField(Spread(data), "__meta", meta);
    assert Lookup(SetField(f, "name", NameOf(data, body)), "__meta") == Lookup(f, "__meta");
  }

  /** The input's name is the data's, then the body's, then `""`. */
  lemma InputName(data: Value, body: Value, meta: Value)
    ensures Get(TemplateInput(data, body, meta), "name") == NameOf(data, body)
  {
  }

  /** Every other field of object data is passed on unchanged. */
  lemma InputKeepsData(data: Value, body: Value, meta: Value, k: string)
    requires data.Obj? && k != "__meta" && k != "name"
    ensures Get(TemplateInput(data, body, meta), k) == Get(data, k)
  {
    var f := SetField(data.fields, "__meta", meta);
    assert Lookup(SetField(f, "name", NameOf(data, body)), k) == Lookup(f, k);
  }

  /** The data's fields keep their order, with `__meta` and `name` after them unless the data already had
      them. */
  lemma InputKeys(data: Value, body: Value, meta: Value)
    requires data.Obj? && "__meta" !in Keys(data.fields) && "name" !in Keys(data.fields)
    ensures Keys(TemplateInput(data, body, meta).fields) == Keys(data.fields) + ["__meta", "name"]
  {
    var f := SetField(data.fields, "__meta", meta);
    assert Keys(f) == Keys(data.fields) + ["__meta"];
    assert "name" !in Keys(f);
    assert Keys(f) + ["name"] == Keys(data.fields) + ["__meta", "name"];
  }

  /** Data that is not an object or an array (a string, a number, `null`) adds no field of its own. */
  lemma ScalarDataIgnored(data: Value, body: Value, meta: Value)
    requires !data.Obj? && !data.Arr?
    ensures Keys(TemplateInput(data, body, meta).fields) == ["__meta", "name"]
  {
  }

  // ---- the response ----

  /** What a renderer can give back: a Buffer, a Uint8Array, an ArrayBuffer, or something else. */
  datatype Rendered = BufferOut(bytes: seq<bv8>) | Uint8Out(bytes: seq<bv8>) | ArrayBufferOut(bytes: seq<bv8>) | OtherOut

  /** The bytes sent: those of any binary result, none for anything else. */
  function BodyBytes(out: Rendered): seq<bv8>
  {
    if out.OtherOut? then [] else out.bytes
  }

  /** A response body: bytes, plain text, or a JSON value. */
  datatype Body = Bytes(bytes: seq<bv8>) | Text(text: string) | Json(json: Value)

  /** The headers of every PDF answer. */
  const PdfHeaders: map<string, string> := map[
    "Content-Type" := "application/pdf",
    "Content-Disposition" := "inline; filename=\"ResumeStudio-Temp.pdf\"",
    "Cache-Control" := "no-store"]

  /** A call of a renderer: what its promise resolves to, or `None` when it rejects. */
  type RenderCall = (Renderer, Value) -> Option<Rendered>

  /** What a handler answers, or that it threw before answering. */
  datatype Reply = Reply(status: int, headers: map<string, string>, body: Body) | Threw

  /** The request as the handler sees it: its method and a body that is either still text or already parsed. */
  datatype ReqBody = RawText(text: string) | Parsed(value: Value)
  datatype Request = Request(verb: string, body: ReqBody)

  /** The parsed body, or `None` when `JSON.parse` (a parameter here) rejects a text body. */
  function BodyOf(b: ReqBody, parse: string -> Option<Value>): Option<Value>
  {
    match b
    case RawText(s) => parse(s)
    case Parsed(v) => Some(v)
  }

  /** The answer of the handler: 405 to anything but POST, 400 to a text body that is not JSON, and
      otherwise the PDF from the chosen renderer; it throws when the type or the template cannot be made
      a string or when the renderer rejects. */
  function Respond(req: Request, parse: string -> Option<Value>, now: string, render: RenderCall): (r: Reply)
    ensures r.Reply? && r.status == 405 <==> req.verb != "POST"
    ensures r.Reply? && r.status == 400 <==> req.verb == "POST" && BodyOf(req.body, parse).None?
    ensures r.Reply? && r.status == 200 ==> r.headers == PdfHeaders && r.body.Bytes?
    ensures r.Reply? ==> r.status in {200, 400, 405}
    ensures (req.verb == "POST" && BodyOf(req.body, parse).Some?
             && (NormalizeType(Get(BodyOf(req.body, parse).value, "type")).None?
                 || NormalizeTemplate(Get(BodyOf(req.body, parse).value, "template")).None?))
            ==> r.Threw?
  {
    if req.verb != "POST" then
      Reply(405, map[], Json(Record(["error"], [Str("Method Not Allowed. Use POST.")])))
    else
      match BodyOf(req.body, parse)
      case None => Reply(400, map[], Text("Invalid JSON"))
      case Some(body) =>
        match (NormalizeType(Get(body, "type")), NormalizeTemplate(Get(body, "template")))
        case (Some(t), Some(template)) =>
          var data := Coalesce(Get(body, "data"), Obj([]));
          var input := TemplateInput(data, body, Meta(Str(t), Str(template), now));
          (match render(Choose(t + ":" + template), input)
           case Some(out) => Reply(200, PdfHeaders, Bytes(BodyBytes(out)))
           case None => Threw)
        case _ => Threw
  }

  /** A POST with a usable body is answered with the bytes of the renderer its normalised type and template
      choose, given the data with the normalised `__meta` and the name; the handler throws when that
      renderer rejects. */
  lemma RespondRenders(req: Request, parse: string -> Option<Value>, now: string, render: RenderCall, body: Value)
    requires req.verb == "POST" && BodyOf(req.body, parse) == Some(body)
    requires Norm(Get(body, "type")).Some? && Norm(Get(body, "template")).Some?
    ensures var t := NormalizeType(Get(body, "type")).value;
            var template := NormalizeTemplate(Get(body, "template")).value;
            var data := Coalesce(Get(body, "data"), Obj([]));
            var out := render(Choose(t + ":" + template), TemplateInput(data, body, Meta(Str(t), Str(template), now)));
            Respond(req, parse, now, render) == if out.Some? then Reply(200, PdfHeaders, Bytes(BodyBytes(out.value))) else Threw
  {
  }

  /** Which renderer a body selects: the CV one for a type that normalises to `cv`, the resume one for any
      other type, provided the template normalises to an alias of `basic` or to `basic`; debug otherwise. */
  lemma RendererOfBody(body: Value)
    requires Norm(Get(body, "type")).Some? && Norm(Get(body, "template")).Some?
    ensures var key := NormalizeType(Get(body, "type")).value + ":" + NormalizeTemplate(Get(body, "template")).value;
            var m := Norm(Get(body, "template")).value;
            (Choose(key) == CvBasic <==> Norm(Get(body, "type")) == Some("cv") && (BasicAlias(m) || m == "basic"))
            && (Choose(key) == ResumeBasic <==> Norm(Get(body, "type")) != Some("cv") && (BasicAlias(m) || m == "basic"))
  {
    ChooseKey(NormalizeType(Get(body, "type")).value, NormalizeTemplate(Get(body, "template")).value);
  }

  /** The framework's response object, changed in place by the handler. */
  class ApiResponse {
    var status: int
    var headers: map<string, string>
    var sent: Option<Body>

    constructor ()
      ensures status == 200 && headers == map[] && sent == None
    {
      status := 200;
      headers := map[];
      sent := None;
    }

    /** `res.status(code)`. */
    method Status(code: int)
      modifies this
      ensures status == code && headers == old(headers) && sent == old(sent)
    {
      status := code;
    }

    /** `res.setHeader(name, value)`: a header set again is replaced. */
    method SetHeader(name: string, value: string)
      modifies this
      ensures headers == old(headers)[name := value] && status == old(status) && sent == old(sent)
    {
      headers := headers[name := value];
    }

    /** `res.send(body)` or `res.json(body)`. */
    method Send(body: Body)
      modifies this
      ensures sent == Some(body) && status == old(status) && headers == old(headers)
    {
      sent := Some(body);
    }
  }

  /** `handler(req, res)`: answers on `res` as `Respond` says, and leaves it alone when it throws, the
      renderer rejecting included, since the headers are set only once the PDF is there. */
  method Handle(req: Request, res: ApiResponse, parse: string -> Option<Value>, now: string, render: RenderCall)
    modifies res
    ensures var r := Respond(req, parse, now, render);
            if r.Reply? then res.status == r.status && res.headers == old(res.headers) + r.headers && res.sent == Some(r.body)
            else res.status == old(res.status) && res.headers == old(res.headers) && res.sent == old(res.sent)
  {
    if req.verb != "POST" {
      res.Status(405);
      res.Send(Json(Record(["error"], [Str("Method Not Allowed. Use POST.")])));
      return;
    }
    var parsed := BodyOf(req.body, parse);
    if parsed.None? {
      res.Status(400);
      res.Send(Text("Invalid JSON"));
      return;
    }
    var body := parsed.value;
    var t := NormalizeType(Get(body, "type"));
    var template := NormalizeTemplate(Get(body, "template"));
    if t.None? || template.None? {
      return;
    }
    var data := Coalesce(Get(body, "data"), Obj([]));
    var renderer := Choose(t.value + ":" + template.value);
    var input := TemplateInput(data, body, Meta(Str(t.value), Str(template.value), now));
    var out := render(renderer, input);
    if out.None? {
      RespondRenders(req, parse, now, render, body);
      return;
    }
    var buf := BodyBytes(out.value);
    res.SetHeader("Content-Type", "application/pdf");
    res.SetHeader("Content-Disposition", "inline; filename=\"ResumeStudio-Temp.pdf\"");
    res.SetHeader("Cache-Control", "no-store");
    res.Status(200);
    res.Send(Bytes(buf));
    RespondRenders(req, parse, now, render, body);
    HeadersSet(old(res.headers));
  }

  lemma HeadersSet(m: map<string, string>)
    ensures m["Content-Type" := "application/pdf"]["Content-Disposition" := "inline; filename=\"ResumeStudio-Temp.pdf\""]
              ["Cache-Control" := "no-store"] == m + PdfHeaders
  {
  }
}
