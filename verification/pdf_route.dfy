/** The `/api/pdf` route of the app router. It dispatches like the pages handler, except that the type and the
    template are taken as given (defaulting only when missing), so `CV` or `Basic` reach the debug renderer.
    It answers with a fresh response value instead of changing one in place. */
module PdfRoute {
  import opened Base
  import opened Strings
  import opened JsValue
  import opened PdfApi

  /** `body.type ?? "resume"`. */
  function TypeOf(body: Value): (r: Value)
    ensures !IsNullish(r)
  {
    Coalesce(Get(body, "type"), Str("resume"))
  }

  /** `body.template ?? "basic"`. */
  function TemplateOf(body: Value): (r: Value)
    ensures !IsNullish(r)
  {
    Coalesce(Get(body, "template"), Str("basic"))
  }

  /** The renderer the body selects, by the key `` `${type}:${template}` ``; `None` when the template
      literal throws. */
  function RendererOf(body: Value): (r: Option<Renderer>)
    ensures r.Some? <==> ToStr(TypeOf(body)).Some? && ToStr(TemplateOf(body)).Some?
  {
    match (ToStr(TypeOf(body)), ToStr(TemplateOf(body)))
    case (Some(t), Some(m)) => Some(Choose(t + ":" + m))
    case _ => None
  }

  /** `POST(req)`, with `None` for a body that `req.json()` rejects. It throws when the key cannot be
      built or the renderer rejects. */
  function Post(body: Option<Value>, now: string, render: RenderCall): (r: Reply)
    ensures r.Reply? && r.status == 400 <==> body.None?
    ensures r.Reply? && body.Some? ==> r.status == 200 && r.headers == PdfHeaders && r.body.Bytes?
    ensures r.Threw? ==> body.Some?
    ensures body.Some? && RendererOf(body.value).None? ==> r.Threw?
  {
    match body
    case None => Reply(400, map[], Text("Invalid JSON"))
    case Some(b) =>
      match RendererOf(b)
      case Some(renderer) =>
        var input := TemplateInput(Coalesce(Get(b, "data"), Obj([])), b, Meta(TypeOf(b), TemplateOf(b), now));
        (match render(renderer, input)
         case Some(out) => Reply(200, PdfHeaders, Bytes(BodyBytes(out)))
         case None => Threw)
      case None => Threw
  }

  // ---- what the route promises ----

  /** A body without type and template gets the basic resume renderer. */
  lemma DefaultsToResume(body: Value)
    requires IsNullish(Get(body, "type")) && IsNullish(Get(body, "template"))
    ensures RendererOf(body) == Some(ResumeBasic)
  {
    ChooseKey("resume", "basic");
  }

  /** Text type and template select by exact match, without trimming or case folding: only `resume` or `cv`
      with `basic` reach a basic renderer. */
  lemma ExactMatch(body: Value, t: string, m: string)
    requires Get(body, "type") == Str(t) && Get(body, "template") == Str(m)
    ensures RendererOf(body) == Some(ResumeBasic) <==> t == "resume" && m == "basic"
    ensures RendererOf(body) == Some(CvBasic) <==> t == "cv" && m == "basic"
  {
    ChooseKey(t, m);
  }

  /** `CV` reaches the debug renderer here, while the pages handler gives it to the CV renderer. */
  lemma UpperCaseDiffers(body: Value)
    requires Get(body, "type") == Str("CV") && IsNullish(Get(body, "template"))
    ensures RendererOf(body) == Some(Debug)
    ensures NormalizeType(Get(body, "type")) == Some("cv") && NormalizeTemplate(Get(body, "template")) == Some("basic")
  {
    ChooseKey("CV", "basic");
    UpperCv();
  }

  lemma UpperCv()
    ensures Norm(Str("CV")) == Some("cv")
  {
    TrimNoSpaceEnds("CV");
    var l := ToLower("CV");
    assert l[0] == 'c' && l[1] == 'v';
    assert l == "cv";
  }

  /** The renderer gets the data with `__meta` holding the type and template as sent, and the name; its
      bytes are the answer, and the route throws when it rejects. */
  lemma PostRenders(body: Value, now: string, render: RenderCall)
    requires RendererOf(body).Some?
    ensures var out := render(RendererOf(body).value,
                              TemplateInput(Coalesce(Get(body, "data"), Obj([])), body,
                                            Meta(TypeOf(body), TemplateOf(body), now)));
            Post(Some(body), now, render) == if out.Some? then Reply(200, PdfHeaders, Bytes(BodyBytes(out.value))) else Threw
  {
  }
}
