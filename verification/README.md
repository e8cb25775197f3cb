# Resume Studio core, modelled in Dafny

Resume Studio is a web application that helps a job seeker write a Japanese resume (履歴書) and a career
history (職務経歴書). A tabbed form collects personal data, an education and work history,
qualifications and questionnaire answers. Prompt builders turn the answers into instructions for a text
generator. The generated and typed texts then go through a PDF pipeline, which:

- validates and normalises the payload with zod schemas;
- resolves `{{a.b.0}}` placeholders against the payload;
- dispatches on a document type and a template;
- renders the result, either through React page templates, through pdf-lib renderers driven by a
  y-cursor, or through a PDF 1.4 emitter written by hand.

An older pipeline fills `{{ key }}` tokens into HTML converted from a DOCX template.

The project models that core, one Dafny module per source file:

- `simple_pdf.dfy` holds the PDF emitter. Every length and offset is counted in UTF-8 bytes.
- `placeholder.dfy`, `docx_to_pdf.dfy` and `regex.dfy` hold the placeholder engines. `regex.dfy` covers
  the fragment of ECMAScript regular expressions and of `String.prototype.replace` they use.
- `build_resume_pdf.dfy`, `resume_basic.dfy` and `cv_basic.dfy` hold the pdf-lib renderers. Each is an
  imperative method over a draw log (`draw_log.dfy`), proved against a plan function.
- `map_form_data.dfy`, `lid_normalize.dfy` and `lid_map_placeholders.dfy` hold the payload mappers.
- `pdf_schema.dfy`, `career_schema.dfy`, `selfpr_schema.dfy` and `zod.dfy` hold the validators.
- `career_prompt.dfy` and `cv_fields.dfy` hold the prompt builders.
- `resume_template.dfy`, `career_template.dfy`, `safe_text.dfy` and `txt.dfy` hold the text the React
  templates lay out.
- `pdf_api.dfy`, `pdf_route.dfy` and `template_registry.dfy` hold the two PDF endpoints and the
  template registry.
- `resume_form.dfy` and `tabs.dfy` hold the form's submit step and the tab strip.

`base.dfy`, `strings.dfy`, `js_value.dfy` and `form_data.dfy` hold what the modules share:

- sequences;
- the `String.prototype` operations;
- JavaScript values, as a finite tree with ordered own fields;
- the form's records.

Two kinds of member carry the proofs:

- Code that updates state step by step is a method proved against a specification function. This covers
  the PDF emitter's buffers and offsets, the renderers' cursors, the section list of the form mapper, the
  DOCX substitution loop, the API response object, the form's submit step, the generate button and the
  tab set.
- Code that computes by expressions is a function, with lemmas for the properties it promises.

## Model

| member | source | states |
|---|---|---|
| SafeText.CoerceText | lib/pdf/SafeText.tsx:6-17 | nullish values and objects give "", a string gives itself, other primitives their `String()` form, an array the non-empty texts of its items joined with " / " |
| SafeText.ItemTexts | lib/pdf/SafeText.tsx:9-10 | one text per array item, in order, each the item's coerced text |
| SafeText.ArrayAppend | lib/pdf/SafeText.tsx:8-13 | appending items to an array glues their text on with one " / ", and an empty side leaves no separator |
| SafeText.SingletonArray | lib/pdf/SafeText.tsx:8-13 | a one-element array has the same text as its element |
| SafeText.ArrayEmpty | lib/pdf/SafeText.tsx:8-13 | an array's text is empty exactly when every item's text is empty |
| SafeText.Rendered | lib/pdf/SafeText.tsx:19-21 | the component shows its children's coerced text: nothing for nullish or object children, a string child verbatim |
| Txt.Txt | lib/pdf/txt.ts:3-14 | nullish and object values give "", a string gives itself |
| Txt.TxtIsCoerceText | lib/pdf/txt.ts:3-14 | `txt` and `coerceText` agree on every value |
| Txt.TextsAreItemTexts | lib/pdf/txt.ts:6-9 | the item texts of both helpers agree on every array |
| TemplateRegistry.Own | lib/pdf/template-registry.ts:9-13 | the registry has an own entry exactly for `resume`, `career` and `resume_jp` |
| TemplateRegistry.Normalize | lib/pdf/template-registry.ts:16 | the normalised key has no surrounding white space and no capital letter |
| TemplateRegistry.ResolveTemplate | lib/pdf/template-registry.ts:15-21 | a failure carries `Unknown template: ` and the raw key; a success returns the normalised, non-empty key |
| TemplateRegistry.UnknownMessage | lib/pdf/template-registry.ts:18 | the message is `Unknown template: ` followed by the key exactly as given |
| TemplateRegistry.ResolveOwnTemplate | lib/pdf/template-registry.ts:5-21 | the lookup the key type promises: same error message, success only with the normalised key |
| TemplateRegistry.KeysResolve | lib/pdf/template-registry.ts:9-21 | each of the three keys resolves to itself whatever its case and surrounding spaces; `resume_jp` and `resume` give the same page |
| TemplateRegistry.UnknownKeepsRawKey | lib/pdf/template-registry.ts:17-19 | an empty or unknown key fails with the key as given, not as normalised |
| TemplateRegistry.CapitalInName | lib/pdf/template-registry.ts:16-17 | every inherited member other than `constructor` and `__proto__` has a capital letter, so normalising can never produce it |
| TemplateRegistry.InheritedThatPass | lib/pdf/template-registry.ts:16-20 | the only inherited members that resolve are `constructor` and `__proto__` |
| TemplateRegistry.InheritedResolves | lib/pdf/template-registry.ts:17-20 | a key normalising to `constructor` or `__proto__` resolves, to something that is not a page |
| TemplateRegistry.ConstructorResolves | lib/pdf/template-registry.ts:17-20 | `constructor` resolves to the inherited member as the code is written |
| TemplateRegistry.OwnLookupSound | lib/pdf/template-registry.ts:5-13 | the own-key lookup only ever returns a registry key and a page, resolves exactly the three keys, and agrees with the code on every key that is not an inherited member |
| LidNormalize.MapEach | lid/pdf/normalize.ts:10-24 | `(list ?? []).map(f)` succeeds exactly for a missing list or an array whose every entry projects; then it is empty, or the entries projected one for one in order |
| LidNormalize.Pick | lid/pdf/normalize.ts:10-15 | projecting an entry succeeds exactly when it is not nullish and yields the named properties, missing ones as `undefined` |
| LidNormalize.Project | lid/pdf/normalize.ts:24-26 | a project entry projects exactly when it is not nullish |
| LidNormalize.NameOf | lid/pdf/normalize.ts:4-21 | the name is never nullish |
| LidNormalize.Contacts | lid/pdf/normalize.ts:5-9 | the contacts are always an object |
| LidNormalize.ToResumePayload | lid/pdf/normalize.ts:2-17 | the mapper throws exactly for a nullish form or a list that cannot be mapped (not an array, or a nullish entry) |
| LidNormalize.Skills | lid/pdf/normalize.ts:23 | an array is kept, a missing value gives the empty list, and it fails exactly for a value that is neither array, string nor nullish |
| LidNormalize.ToCvPayload | lid/pdf/normalize.ts:19-28 | the CV mapper throws exactly for a nullish form, unsplittable skills or unmappable projects |
| LidNormalize.NameFallback | lid/pdf/normalize.ts:4-21 | the name is `fullName` whenever set, even to "", then `name`, then "" |
| LidNormalize.ContactsDefault | lid/pdf/normalize.ts:5-9 | each contact is the form's value or "", never nullish |
| LidNormalize.ResumeReads | lid/pdf/normalize.ts:3-16 | the payload reads back the name, the projected educations and the projected jobs |
| LidNormalize.EducationsProjected | lid/pdf/normalize.ts:10-12 | each education keeps its position and becomes exactly {school, degree, period} |
| LidNormalize.JobsFromEitherList | lid/pdf/normalize.ts:13-15 | jobs come from `jobs`, from `workHistory` only when `jobs` is missing, else none; their number is kept |
| LidNormalize.NullEntryThrows | lid/pdf/normalize.ts:10-12 | a nullish education entry makes the mapper throw |
| LidNormalize.CvReads | lid/pdf/normalize.ts:20-27 | the CV payload reads back the summary (or ""), the skills and the projected projects |
| LidNormalize.SkillsFromText | lid/pdf/normalize.ts:23 | comma-separated skills become all of their trimmed, non-empty items, in order, with no cap on their number |
| LidNormalize.ProjectTech | lid/pdf/normalize.ts:25 | every projected project carries a `tech` list: its own, or the empty one |
| LidMapPlaceholders.OrBlank | lid/pdf/mapPlaceholders.ts:3 | `v ?? ""` is never nullish |
| LidMapPlaceholders.ResumeValue | lid/pdf/mapPlaceholders.ts:3-22 | no placeholder value is nullish |
| LidMapPlaceholders.MapResumePlaceholders | lid/pdf/mapPlaceholders.ts:1-24 | the map fails exactly for a nullish source and otherwise has exactly the twenty placeholder keys |
| LidMapPlaceholders.SkillsText | lid/pdf/mapPlaceholders.ts:32 | skills that are not an array are kept, or "" when missing |
| LidMapPlaceholders.MapCvPlaceholders | lid/pdf/mapPlaceholders.ts:26-35 | the CV map fails exactly for a nullish source or unjoinable skills, and otherwise has exactly its six keys |
| LidMapPlaceholders.ResumeFieldsDistinct | lid/pdf/mapPlaceholders.ts:3-22 | the resume map lists twenty distinct placeholders |
| LidMapPlaceholders.CvFieldsDistinct | lid/pdf/mapPlaceholders.ts:28-33 | the CV map lists six distinct placeholders |
| LidMapPlaceholders.ResumeMapReads | lid/pdf/mapPlaceholders.ts:2-23 | every placeholder reads back as its value and none is missing |
| LidMapPlaceholders.PlainFieldKept | lid/pdf/mapPlaceholders.ts:3-22 | a plain field keeps a set value, even "", and only a missing one becomes "" |
| LidMapPlaceholders.ContactFallback | lid/pdf/mapPlaceholders.ts:14-15 | `phone` and `email` come from the nested contacts only when the top-level field is missing |
| LidMapPlaceholders.GeneratedPrFallback | lid/pdf/mapPlaceholders.ts:21 | `generated_pr` falls back to `self_pr_resume`, then to "" |
| LidMapPlaceholders.CvMapReads | lid/pdf/mapPlaceholders.ts:32-33 | the CV map carries the skills text and `self_pr_cv`, falling back to `generated_pr` |
| LidMapPlaceholders.SkillsJoined | lid/pdf/mapPlaceholders.ts:32 | an array of strings becomes one text, the strings separated by ", " |
| PdfApi.Norm | pages/api/pdf.ts:21-23 | nullish gives ""; any result is trimmed and lower-case; a string gives its trimmed, lower-cased text |
| PdfApi.NormIdempotent | pages/api/pdf.ts:21-23 | normalising a normalised value changes nothing |
| PdfApi.NormFixed | pages/api/pdf.ts:21-23 | trimmed lower-case text normalises to itself |
| PdfApi.NormalizeType | pages/api/pdf.ts:24-26 | the type is `cv` exactly when the value normalises to `cv`, and `resume` otherwise |
| PdfApi.NormalizeTemplate | pages/api/pdf.ts:27-31 | the template is never empty nor an alias of `basic`, is trimmed and lower-case, and is the normalised text unless that is an alias |
| PdfApi.TypeIdempotent | pages/api/pdf.ts:24-26 | a normalised type normalises to itself |
| PdfApi.TemplateIdempotent | pages/api/pdf.ts:27-31 | a normalised template normalises to itself |
| PdfApi.Choose | pages/api/pdf.ts:52-58 | the table gives the resume renderer exactly for `resume:basic` and the CV renderer exactly for `cv:basic` |
| PdfApi.KeySplit | pages/api/pdf.ts:57 | keys built from colon-free parts are equal exactly when their parts are |
| PdfApi.ChooseKey | pages/api/pdf.ts:52-58 | a basic renderer is chosen exactly for type `resume` or `cv` with template `basic`, the debug renderer for every other pair |
| PdfApi.Spread | pages/api/pdf.ts:61 | object data spreads its own fields; data that is neither object nor array spreads nothing |
| PdfApi.Meta | pages/api/pdf.ts:62 | `__meta` has exactly the keys type, template and generatedAt |
| PdfApi.NameOf | pages/api/pdf.ts:63 | the name is never nullish |
| PdfApi.TemplateInput | pages/api/pdf.ts:60-64 | the template input is an object |
| PdfApi.InputMeta | pages/api/pdf.ts:60-64 | the input carries the handler's `__meta` whatever the data held under that name |
| PdfApi.InputName | pages/api/pdf.ts:63 | the input's name is the data's, then the body's, then "" |
| PdfApi.InputKeepsData | pages/api/pdf.ts:61 | every other field of object data is passed on unchanged |
| PdfApi.InputKeys | pages/api/pdf.ts:60-64 | the data's keys keep their order, followed by `__meta` and `name` |
| PdfApi.ScalarDataIgnored | pages/api/pdf.ts:61 | scalar data contributes no field |
| PdfApi.Respond | pages/api/pdf.ts:33-79 | 405 exactly for a method other than POST, 400 exactly for a POST whose text body is not JSON, a 200 answer carries the PDF headers and bytes, no other status is answered, and a type or template that cannot be made a string makes the handler throw |
| PdfApi.RespondRenders | pages/api/pdf.ts:48-78 | a usable POST is answered 200 with the bytes the renderer chosen by the normalised type and template resolves to, given the data with `__meta` and the name; the handler throws when that renderer rejects |
| PdfApi.RendererOfBody | pages/api/pdf.ts:24-58 | the CV renderer exactly for a type normalising to `cv` with a template meaning basic, the resume renderer for any other type with such a template |
| PdfApi.ApiResponse.constructor | pages/api/pdf.ts:33 | a fresh response: status 200, no headers, nothing sent |
| PdfApi.ApiResponse.Status | pages/api/pdf.ts:35-78 | sets the status and nothing else |
| PdfApi.ApiResponse.SetHeader | pages/api/pdf.ts:75-77 | sets or replaces one header and nothing else |
| PdfApi.ApiResponse.Send | pages/api/pdf.ts:35-78 | records the body sent and nothing else |
| PdfApi.Handle | pages/api/pdf.ts:33-79 | the handler leaves on the response exactly the status, headers and body `Respond` gives, and leaves it untouched when it throws, a rejecting renderer included |
| PdfApi.HeadersSet | pages/api/pdf.ts:75-77 | the three header calls add exactly the PDF headers |
| PdfRoute.TypeOf | app/api/pdf/route.ts:32 | the type is never nullish |
| PdfRoute.TemplateOf | app/api/pdf/route.ts:33 | the template is never nullish |
| PdfRoute.RendererOf | app/api/pdf/route.ts:36-42 | a renderer is chosen exactly when type and template can be turned into text |
| PdfRoute.Post | app/api/pdf/route.ts:24-68 | 400 exactly for a body that is not JSON; otherwise 200 with the PDF headers and bytes, or a throw, which a key that cannot be built always gives |
| PdfRoute.DefaultsToResume | app/api/pdf/route.ts:32-42 | a body without type and template gets the basic resume renderer |
| PdfRoute.ExactMatch | app/api/pdf/route.ts:32-42 | text type and template select by exact match: only `resume` or `cv` with `basic` reach a basic renderer |
| PdfRoute.UpperCaseDiffers | app/api/pdf/route.ts:32-42 | `CV` reaches the debug renderer here while the pages handler normalises it to the CV renderer |
| PdfRoute.PostRenders | app/api/pdf/route.ts:44-67 | the chosen renderer gets the data with `__meta` holding the type and template as sent, and the name; its bytes are the answer, and the route throws when it rejects |
| PdfSchema.GenderText | lib/pdf/schema.ts:16-21 | each of the three choices has a non-empty text |
| PdfSchema.TextBlock | lib/pdf/schema.ts:4-23 | a text field accepts exactly a string or absence, gives a trimmed text, and "" when absent |
| PdfSchema.TextBlockTrims | lib/pdf/schema.ts:23 | a given text keeps exactly its characters between the surrounding white space |
| PdfSchema.TextBlockIdempotent | lib/pdf/schema.ts:23 | parsing a parsed text again changes nothing |
| PdfSchema.Photo | lib/pdf/schema.ts:26-35 | the photo accepts exactly absence, null or a string; a kept photo is non-empty and trimmed; a string becomes null exactly when it is blank |
| PdfSchema.PhotoIdempotent | lib/pdf/schema.ts:26-35 | a parsed photo parses to itself |
| PdfSchema.GenderField | lib/pdf/schema.ts:16-21 | the gender is one of the three texts or absent, absent means the unselected choice, and each text gives its choice |
| PdfSchema.BoolField | lib/pdf/schema.ts:45 | `same_as_current_address` accepts exactly a boolean or absence, which means false |
| PdfSchema.HistoryEntryOf | lib/pdf/schema.ts:3-8 | a history entry is accepted only from an object, and all four of its texts are trimmed |
| PdfSchema.QualificationEntryOf | lib/pdf/schema.ts:10-14 | a qualification entry is accepted only from an object, and its three texts are trimmed |
| PdfSchema.ListField | lib/pdf/schema.ts:51-52 | absence gives the empty list; an array is accepted exactly when every entry is, keeping every entry in order |
| PdfSchema.ParseTexts | lib/pdf/schema.ts:36-68 | the text fields are accepted exactly when each is, and each parsed text is that field's text block |
| PdfSchema.ParsePayload | lib/pdf/schema.ts:25-69 | a payload is accepted exactly when it is an object and every named field is valid |
| PdfSchema.ParsedIsNormal | lib/pdf/schema.ts:23-69 | after parsing, every text is trimmed and present, the photo is absent or non-blank and every entry field is trimmed |
| PdfSchema.TextsTrimmed | lib/pdf/schema.ts:23 | every parsed text field is trimmed |
| PdfSchema.ListEntryFrom | lib/pdf/schema.ts:51-52 | every parsed entry comes from an element of the array |
| PdfSchema.HistoryTrimmed | lib/pdf/schema.ts:3-51 | every field of every parsed history entry is trimmed |
| PdfSchema.QualificationsTrimmed | lib/pdf/schema.ts:10-52 | every field of every parsed qualification entry is trimmed |
| PdfSchema.NoTextsGiven | lib/pdf/schema.ts:23 | with no text given every text is "" |
| PdfSchema.ParsedFromParts | lib/pdf/schema.ts:25-69 | a payload is assembled from its parsed parts |
| PdfSchema.EmptyPayloadDefaults | lib/pdf/schema.ts:25-69 | an empty object is valid: no photo, the unselected gender, not the same address, every text "" and both lists empty |
| PdfSchema.ParseRequestBody | lib/pdf/schema.ts:73-76 | the request body is accepted exactly with a non-empty, untrimmed `type` string and a valid `payload`, and carries both |
| Zod.NumberOf | lib/zod/career.ts:15-22 | `Number(v)` of a number is itself, of null 0, and undefined or NaN are not numbers |
| Zod.Check | lib/zod/career.ts:3-54 | a rule that keeps a value other than `undefined` was given a value, so only optional rules let absence through |
| Zod.Fields | lib/zod/career.ts:5-55 | the parsed fields exist exactly when every field of the shape passes |
| Zod.ParseObject | lib/zod/career.ts:5-55 | an object schema accepts exactly an object whose every field passes, and yields its parsed fields |
| Zod.FieldsHold | lib/zod/career.ts:5-55 | each parsed field holds what its rule made of the input |
| Zod.KeyAbsent | lib/zod/career.ts:5-55 | a key the schema does not name is dropped from the parsed object |
| Zod.AllPassAppend | lib/zod/career.ts:5-55 | a schema made of two parts passes exactly when both parts pass |
| Zod.PassesElsewhere | lib/zod/career.ts:5-55 | fields a schema does not name cannot change its verdict |
| Zod.MiddleDecides | lib/zod/career.ts:11-13 | when only one part of a schema names some keys, only that part looks at them |
| Zod.FieldsFrom | lib/zod/career.ts:5-55 | every parsed field is defined and is what some rule of the schema made of the input under that key |
| Zod.FieldsKeep | lib/zod/career.ts:5-55 | every field the rule keeps appears in the parsed object under its key |
| Zod.AsIntended | lib/zod/selfpr.ts:29-34 | the intended reading changes only the optional trimmed fields and keeps every key |
| Zod.Intended | lib/zod/selfpr.ts:3-115 | the intended schema reads each field as intended, in the same order |
| Zod.IntendedSameVerdict | lib/zod/selfpr.ts:29-34 | reading the optional fields as intended changes no verdict |
| Zod.TrimsOutput | lib/zod/selfpr.ts:4-8 | a trimming rule yields trimmed text, non-empty when the rule has a positive minimum |
| Zod.TrimmedFields | lib/zod/selfpr.ts:3-115 | every field parsed by trimming rules is trimmed text, and non-empty when no rule can yield "" |
| Zod.TextBounds | lib/zod/career.ts:6 | a bounded string is accepted exactly when its untrimmed length is within the bounds, and is kept as given |
| Zod.TrimmedBounds | lib/zod/selfpr.ts:4-8 | a trimmed string is bounded after trimming, so a blank required field fails |
| Zod.EmptyStaysEmpty | lib/zod/selfpr.ts:29-34 | the optional trimmed rule keeps "" as "" because the first branch of the union already accepts it |
| Zod.OptTrimmedFirstBranch | lib/zod/selfpr.ts:29-34 | whatever the optional trimmed rule accepts, the first branch of the union accepts |
| Zod.BlankBecomesAbsent | lib/zod/selfpr.ts:29-34 | the intended rule turns blank text into absence and otherwise keeps non-empty trimmed text |
| Zod.IntendedAcceptsSame | lib/zod/selfpr.ts:29-34 | the intended rule accepts the same values as the written one and differs only on blank text |
| Zod.MonthNotChecked | lib/zod/career.ts:3 | the pattern takes four digits, a hyphen and two digits, and does not range-check the month |
| Zod.IntRange | lib/zod/career.ts:15-20 | an accepted count is an integer within its range |
| Zod.CoercesEmpty | lib/zod/career.ts:16-22 | coercion counts the empty string and null as 0 |
| Zod.CoercesNumerals | lib/zod/career.ts:16-18 | a numeral counts as its number, so a negative numeral fails a range from 0 |
| CareerSchema.Shape | lib/zod/career.ts:5-55 | the schema has 39 fields |
| CareerSchema.Parse | lib/zod/career.ts:5-55 | the answers are accepted exactly when they are an object whose every field passes |
| CareerSchema.TextRule | lib/zod/career.ts:6-28 | a required text passes exactly when its length, spaces included, is within its bounds |
| CareerSchema.OptTextRule | lib/zod/career.ts:8-34 | an optional text passes exactly when absent or short enough |
| CareerSchema.OneOfRule | lib/zod/career.ts:10 | an enum passes exactly for one of its words |
| CareerSchema.OptOneOfRule | lib/zod/career.ts:35-50 | an optional enum passes exactly when absent or one of its words |
| CareerSchema.PositionRules | lib/zod/career.ts:6-10 | the position fields pass exactly when each keeps its own rule |
| CareerSchema.MonthRule | lib/zod/career.ts:3-12 | a month passes exactly when it has the `YYYY-MM` form, and the optional one also when absent |
| CareerSchema.FlagRule | lib/zod/career.ts:13 | `isCurrent` passes exactly when absent or a boolean |
| CareerSchema.CountRule | lib/zod/career.ts:15-26 | a count passes exactly when absent or a whole number between 0 and its maximum |
| CareerSchema.PeriodRules | lib/zod/career.ts:11-26 | the period fields pass exactly when both months are well formed, each checked on its own |
| CareerSchema.WorkRules | lib/zod/career.ts:27-29 | the work fields pass exactly when each keeps its own rule |
| CareerSchema.AchievementRules | lib/zod/career.ts:30-47 | each achievement's six fields pass exactly when each keeps its own rule |
| CareerSchema.OutlookRules | lib/zod/career.ts:48-54 | the outlook fields pass exactly when each keeps its own rule |
| CareerSchema.ParseIffValid | lib/zod/career.ts:5-55 | the schema accepts exactly the answers valid field by field |
| CareerSchema.NoCrossFieldRule | lib/zod/career.ts:11-13 | no rule relates the end month or the current flag to the start: any well-formed end and flag keep valid answers valid |
| SelfPrSchema.Shape | lib/zod/selfpr.ts:3-115 | the schema has 21 fields |
| SelfPrSchema.Parse | lib/zod/selfpr.ts:3-115 | the answers are accepted exactly when they are an object whose every field passes |
| SelfPrSchema.ParseIntended | lib/zod/selfpr.ts:3-115 | the intended reading accepts exactly when every field passes as intended |
| SelfPrSchema.BetweenRule | lib/zod/selfpr.ts:4-8 | a required answer passes exactly when its trimmed length is within its bounds |
| SelfPrSchema.WithinRule | lib/zod/selfpr.ts:29-34 | an optional answer passes exactly when absent or its trimmed length is within its maximum |
| SelfPrSchema.StoryRules | lib/zod/selfpr.ts:4-34 | the story fields pass exactly when each keeps its own rule |
| SelfPrSchema.StrengthsRules | lib/zod/selfpr.ts:35-69 | the strengths fields pass exactly when each keeps its own rule |
| SelfPrSchema.PrinciplesRules | lib/zod/selfpr.ts:70-93 | the principles fields pass exactly when each keeps its own rule |
| SelfPrSchema.FutureRules | lib/zod/selfpr.ts:94-114 | the future fields pass exactly when each keeps its own rule |
| SelfPrSchema.ParseIffValid | lib/zod/selfpr.ts:3-115 | both the schema and its intended reading accept exactly the valid answers |
| SelfPrSchema.BlankTitleRejected | lib/zod/selfpr.ts:4-8 | a title made only of white space is rejected |
| SelfPrSchema.ShapeRules | lib/zod/selfpr.ts:3-115 | every field trims, and read as intended none can yield "" |
| SelfPrSchema.ParsedTrimmed | lib/zod/selfpr.ts:3-115 | every parsed answer is a trimmed string |
| SelfPrSchema.BlankMetricsKept | lib/zod/selfpr.ts:29-34 | as written, blank metrics parse to "" instead of being left out |
| SelfPrSchema.IntendedNoBlank | lib/zod/selfpr.ts:29-34 | read as intended, every kept answer is non-empty trimmed text |
| MapFormData.DatePrefix | lib/pdf/mapFormDataToResumeInput.ts:5-7 | the date is year 年 month 月, or whichever part is set followed by 月, and empty exactly when both parts are |
| MapFormData.FormatHistory | lib/pdf/mapFormDataToResumeInput.ts:4-8 | the date and the description, with the status in parentheses when set, joined by one space with empty parts skipped; empty exactly when all four fields are |
| MapFormData.FormatQualification | lib/pdf/mapFormDataToResumeInput.ts:10-13 | the date and the description joined by one space with empty parts skipped; empty exactly when all three fields are |
| MapFormData.CollectOne | lib/pdf/mapFormDataToResumeInput.ts:16 | one value gives at most one item |
| MapFormData.CollectNonEmpty | lib/pdf/mapFormDataToResumeInput.ts:15-17 | never more items than values |
| MapFormData.CollectedClean | lib/pdf/mapFormDataToResumeInput.ts:15-17 | every collected item is non-empty and trimmed |
| MapFormData.CollectedComplete | lib/pdf/mapFormDataToResumeInput.ts:15-17 | every present value that is not blank is collected, trimmed |
| MapFormData.CollectAppend | lib/pdf/mapFormDataToResumeInput.ts:15-17 | collecting works value by value, keeping the order |
| MapFormData.ContactLines | lib/pdf/mapFormDataToResumeInput.ts:26-30 | the contact section holds the mail, phone and address lines in that order, each exactly when its field is non-empty |
| MapFormData.FormatHistories | lib/pdf/mapFormDataToResumeInput.ts:35 | one formatted line per history entry, in order |
| MapFormData.FormatQualifications | lib/pdf/mapFormDataToResumeInput.ts:40 | one formatted line per qualification, in order |
| MapFormData.NotesByType | lib/pdf/mapFormDataToResumeInput.ts:45-57 | a resume's notes come from its self-PR and five answers, a career history's from its five generated texts, in the listed order |
| MapFormData.Headline | lib/pdf/mapFormDataToResumeInput.ts:62-65 | a resume's headline is the generated self-PR when set, and empty exactly when both it and the first answer are; a career history's is its generated summary |
| MapFormData.Candidates | lib/pdf/mapFormDataToResumeInput.ts:24-60 | four candidate sections in the fixed order contact, history, qualifications, notes, with no empty history or qualification line |
| MapFormData.SkipAbsent | lib/pdf/mapFormDataToResumeInput.ts:45-57 | the other document's fields, passed as absent, contribute nothing |
| MapFormData.KeptFour | lib/pdf/mapFormDataToResumeInput.ts:31-60 | dropping empty sections one at a time is the filter over all four |
| MapFormData.PushIfItems | lib/pdf/mapFormDataToResumeInput.ts:31-33 | a section is appended exactly when it has items |
| MapFormData.PushNonEmpty | lib/pdf/mapFormDataToResumeInput.ts:31-60 | the four guarded pushes give the sections that have items, in their fixed order |
| MapFormData.MapFormDataToResumeInput | lib/pdf/mapFormDataToResumeInput.ts:20-72 | the name is unchanged, the headline is the self-PR or first answer (the summary for a career history), and the sections are the non-empty candidates in order, none of them empty |
| DrawLog.Document.constructor | lib/pdf/buildResumePdf.ts:8 | a new document has no page and nothing drawn |
| DrawLog.Document.AddPage | lib/pdf/buildResumePdf.ts:9-35 | adding a page adds one page and draws nothing |
| DrawLog.Document.DrawText | lib/pdf/buildResumePdf.ts:14-31 | drawing appends exactly one record of page, text, position, size and weight |
| BuildResumePdf.Reset | lib/pdf/buildResumePdf.ts:25-35 | a reset puts the cursor at the top of the next page |
| BuildResumePdf.ItemsStep | lib/pdf/buildResumePdf.ts:30-36 | each item is drawn at the cursor with its bullet, which then drops 16 and resets below 60 |
| BuildResumePdf.SectionsStep | lib/pdf/buildResumePdf.ts:22-39 | each section continues the plan from where the sections before it left the cursor |
| BuildResumePdf.SectionsLaid | lib/pdf/buildResumePdf.ts:22-39 | drawing sections keeps every line within its floor and the top, and chained below the one before |
| BuildResumePdf.PlanLaid | lib/pdf/buildResumePdf.ts:13-39 | every baseline lies between 60 and 800 and every title at 80 or above; the name comes first at 800; each line is below the one before on its page or near the top of the next; no line lies beyond the last page |
| BuildResumePdf.ChainOrdered | lib/pdf/buildResumePdf.ts:13-39 | along the drawing order the page never goes back, and on one page the baselines strictly descend |
| BuildResumePdf.ItemsLabels | lib/pdf/buildResumePdf.ts:30-31 | the items are drawn with their bullet, in order, whatever the page breaks |
| BuildResumePdf.SectionsLabels | lib/pdf/buildResumePdf.ts:22-39 | the sections' lines are drawn in input order, each once |
| BuildResumePdf.PlanLines | lib/pdf/buildResumePdf.ts:14-39 | the name, the headline when non-empty, then each title followed by its bulleted items, each exactly once, in input order |
| BuildResumePdf.Build | lib/pdf/buildResumePdf.ts:7-42 | the document holds the planned lines, all drawn on the first page, and one page more per reset |
| BuildResumePdf.AsWrittenOverdraw | lib/pdf/buildResumePdf.ts:23-35 | as written, once the cursor resets the next line lands on the first page within 12 units below the name, higher than the line before it |
| BuildResumePdf.CurrentPage | lib/pdf/buildResumePdf.ts:24-26 | drawing on the current page keeps one record per line |
| BuildResumePdf.CorrectedNoOverdraw | lib/pdf/buildResumePdf.ts:24-26 | drawn on the current page, every line goes to a page that exists and on each page the baselines strictly descend, so nothing is drawn over earlier text |
| BuildResumePdf.DrawSection | lib/pdf/buildResumePdf.ts:22-39 | the section loop body appends exactly the section's planned lines and leaves the cursor where the plan does |
| BuildResumePdf.DrawItems | lib/pdf/buildResumePdf.ts:30-37 | the item loop appends exactly the items' planned lines and leaves the cursor where the plan does |
| SimplePdf.Utf8Char | pdf/templates/shared/simplePdf.ts:31 | a character encodes to one to four bytes, one byte exactly for ASCII, which is its own code |
| SimplePdf.Utf8Append | pdf/templates/shared/simplePdf.ts:31 | encoding works character by character |
| SimplePdf.Utf8Ascii | pdf/templates/shared/simplePdf.ts:35-42 | ASCII text is one byte per character, each the character's code |
| SimplePdf.EscapeChar | pdf/templates/shared/simplePdf.ts:5-10 | a backslash or parenthesis gets a backslash in front, every other character stays |
| SimplePdf.EscapePdfText | pdf/templates/shared/simplePdf.ts:5-10 | text without a backslash or parenthesis is left as it is |
| SimplePdf.EscapeCharwise | pdf/templates/shared/simplePdf.ts:5-10 | the three passes escape each character on its own, because backslashes are doubled first |
| SimplePdf.EscapeRoundTrip | pdf/templates/shared/simplePdf.ts:5-10 | a PDF reader gets the original text back from the escaped text |
| SimplePdf.EscapeLength | pdf/templates/shared/simplePdf.ts:5-10 | escaping adds exactly one character per delimiter |
| SimplePdf.EscapedDelimitersGuarded | pdf/templates/shared/simplePdf.ts:5-25 | no parenthesis in the escaped text lacks a backslash right before it, so the string literal cannot close early |
| SimplePdf.EscapeGuarded | pdf/templates/shared/simplePdf.ts:5-10 | every parenthesis anywhere in the escaped text has a backslash right before it, by induction over the text |
| SimplePdf.BlockOps | pdf/templates/shared/simplePdf.ts:22-26 | each block gives five operators |
| SimplePdf.ContentOps | pdf/templates/shared/simplePdf.ts:21-28 | the stream has five operators per block |
| SimplePdf.ContentOpsAt | pdf/templates/shared/simplePdf.ts:21-28 | operators 5i to 5i+4 are block i's group, at its own baseline |
| SimplePdf.TextObjectsBalanced | pdf/templates/shared/simplePdf.ts:22-26 | every group starts with BT and ends with ET with none between, so text objects never nest |
| SimplePdf.CursorNeverResets | pdf/templates/shared/simplePdf.ts:19-27 | the cursor only goes down and is never checked against the page bottom: block i sits at least 6i below 750 |
| SimplePdf.BlockLinesText | pdf/templates/shared/simplePdf.ts:22-26 | the five lines of a block are BT, the font at its size, the move to (72, y), the escaped text shown, ET |
| SimplePdf.ContentStep | pdf/templates/shared/simplePdf.ts:21-28 | one more block appends its five lines and drops the cursor by its size plus 6 |
| SimplePdf.BuildContentStream | pdf/templates/shared/simplePdf.ts:17-32 | the loop yields the operator lines joined by newlines, UTF-8 encoded |
| SimplePdf.ContentStream | pdf/templates/shared/simplePdf.ts:17-32 | no blocks give an empty stream |
| SimplePdf.Objects | pdf/templates/shared/simplePdf.ts:38-77 | five objects are written |
| SimplePdf.Offsets | pdf/templates/shared/simplePdf.ts:80-87 | one recorded offset per object |
| SimplePdf.XrefEntries | pdf/templates/shared/simplePdf.ts:92-94 | one table entry per offset |
| SimplePdf.CreateSimplePdf | pdf/templates/shared/simplePdf.ts:34-106 | the file is the header, the five objects around the content stream, the table and the trailer |
| SimplePdf.PdfFile | pdf/templates/shared/simplePdf.ts:34-106 | the file starts with the `%PDF-1.4` header line |
| SimplePdf.WriteObjects | pdf/templates/shared/simplePdf.ts:38-77 | the five pushes give the catalog, page tree, page, stream and font objects |
| SimplePdf.LayOut | pdf/templates/shared/simplePdf.ts:79-105 | recording offsets while summing lengths, then appending the table and trailer, gives the concatenated buffers |
| SimplePdf.BuildXref | pdf/templates/shared/simplePdf.ts:90-94 | the table text is its header, the free entry and one padded entry per offset |
| SimplePdf.OffsetStep | pdf/templates/shared/simplePdf.ts:83-87 | each recorded offset is the previous one plus the previous object's length |
| SimplePdf.StartsWithHeader | pdf/templates/shared/simplePdf.ts:35-79 | the file starts with the `%PDF-1.4` line |
| SimplePdf.ObjectStartsWithHead | pdf/templates/shared/simplePdf.ts:38-77 | object k begins with its `k+1 0 obj` line |
| SimplePdf.ObjectInFile | pdf/templates/shared/simplePdf.ts:79-87 | in the file, each object's bytes lie at its offset |
| SimplePdf.ObjectAtOffset | pdf/templates/shared/simplePdf.ts:83-94 | the k-th table offset is the position of `k+1 0 obj`, as the table promises a reader |
| SimplePdf.StreamLengthExact | pdf/templates/shared/simplePdf.ts:61-70 | `/Length` gives the exact number of bytes between `stream` and `endstream` |
| SimplePdf.XrefKeyword | pdf/templates/shared/simplePdf.ts:90 | the table opens with the `xref` line |
| SimplePdf.XrefInFile | pdf/templates/shared/simplePdf.ts:89-96 | the table starts right after the last object |
| SimplePdf.StartXrefPointsAtXref | pdf/templates/shared/simplePdf.ts:89-100 | `startxref` gives the position of the `xref` keyword |
| SimplePdf.TrailerLast | pdf/templates/shared/simplePdf.ts:98-105 | the file ends with the trailer |
| SimplePdf.EndsWithEof | pdf/templates/shared/simplePdf.ts:100 | the file ends with the `%%EOF` line |
| SimplePdf.XrefEntryWidth | pdf/templates/shared/simplePdf.ts:93 | each entry is 20 bytes and its ten digits read back as the offset, for offsets of up to ten digits |
| SimplePdf.EntriesAt | pdf/templates/shared/simplePdf.ts:92-94 | entry k lies 20k bytes after the free entry, so a reader can index it directly |
| ResumeBasic.Educations | pdf/templates/resume/basic.ts:11-42 | at most the first six educations are drawn |
| ResumeBasic.Jobs | pdf/templates/resume/basic.ts:12-54 | at most the first seven jobs are drawn |
| ResumeBasic.Render | pdf/templates/resume/basic.ts:8-64 | one A4 page holding exactly the draws of the layout, in order |
| ResumeBasic.DrawHeader | pdf/templates/resume/basic.ts:19-38 | the title, the name, the contact line when there is one and the education heading, leaving the cursor at 698 |
| ResumeBasic.DrawEducationBlock | pdf/templates/resume/basic.ts:39-47 | a dash for no educations, else the first six entries |
| ResumeBasic.DrawWorkBlock | pdf/templates/resume/basic.ts:49-61 | the work heading 10 below the cursor, then a dash or the first seven jobs |
| ResumeBasic.DrawEducations | pdf/templates/resume/basic.ts:42-45 | one line per education, 16 apart |
| ResumeBasic.DrawJobs | pdf/templates/resume/basic.ts:54-60 | each job's line, and its summary when given, 14 apart |
| ResumeBasic.JobsStep | pdf/templates/resume/basic.ts:54-60 | each job continues the plan of the jobs before it |
| ResumeBasic.HeaderPlaced | pdf/templates/resume/basic.ts:22-38 | title and name head the page, the education heading closes the header, and the contact line is drawn at 744 exactly when one of the three contacts is given |
| ResumeBasic.EducationLines | pdf/templates/resume/basic.ts:39-46 | no educations give a dash at 698; otherwise the first six entries in order, 16 apart from 698 |
| ResumeBasic.JobLines | pdf/templates/resume/basic.ts:55 | one job line per job, in order |
| ResumeBasic.JobsPlanTexts | pdf/templates/resume/basic.ts:54-60 | the size-11 lines are every job's line and the size-10 lines the given summaries, both in list order: no job dropped or repeated, and an empty summary draws nothing |
| ResumeBasic.OneJobTexts | pdf/templates/resume/basic.ts:55-59 | a job draws its line in size 11 and its summary, when given, in size 10 |
| ResumeBasic.JobsPlanPlaced | pdf/templates/resume/basic.ts:54-60 | the jobs descend, each taking 14 or 28 points |
| ResumeBasic.HeaderBand | pdf/templates/resume/basic.ts:22-38 | the header lines descend within 716 to 800 |
| ResumeBasic.EducationBand | pdf/templates/resume/basic.ts:39-47 | at most six education lines descend within 618 to 698 |
| ResumeBasic.WorkBand | pdf/templates/resume/basic.ts:49-61 | the heading and at most seven jobs stay at or above 392 |
| ResumeBasic.LayoutPlaced | pdf/templates/resume/basic.ts:17-61 | every line is at the margin of the one page, each below the one before, none lower than 392 |
| CvBasic.SummaryText | pdf/templates/cv/basic.ts:6-21 | the summary line is never blank: a dash exactly for a missing or empty summary (or one that is a dash), else the summary |
| CvBasic.SkillsText | pdf/templates/cv/basic.ts:8-24 | no skills give a dash, a single skill is shown as it is |
| CvBasic.Projects | pdf/templates/cv/basic.ts:7-29 | at most the first eight projects are drawn |
| CvBasic.Render | pdf/templates/cv/basic.ts:4-37 | one A4 page holding exactly the draws of the layout, in order |
| CvBasic.DrawHeader | pdf/templates/cv/basic.ts:16-26 | the title, the name, the summary and skills sections and the projects heading |
| CvBasic.DrawProjectBlock | pdf/templates/cv/basic.ts:27-35 | a dash for no projects, else the first eight |
| CvBasic.DrawProjects | pdf/templates/cv/basic.ts:29-34 | the loop, with its early exit, draws exactly the planned projects |
| CvBasic.DrawProject | pdf/templates/cv/basic.ts:30-33 | a project's line, its detail when given and its technologies when there are any, then the gap |
| CvBasic.ProjectsStep | pdf/templates/cv/basic.ts:29-34 | each project continues the plan unless the loop has stopped |
| CvBasic.StoppedStays | pdf/templates/cv/basic.ts:33 | after the break, the remaining projects change nothing |
| CvBasic.OneProjectPlaced | pdf/templates/cv/basic.ts:30-33 | a project takes 18 to 46 points and its lines descend |
| CvBasic.ProjectsPlanPlaced | pdf/templates/cv/basic.ts:29-34 | with room for every project the loop never stops, and every project is drawn below the one before |
| CvBasic.BreakNeverFires | pdf/templates/cv/basic.ts:29-33 | the `y < 120` exit never fires: eight projects end at or above 270 |
| CvBasic.HeaderBand | pdf/templates/cv/basic.ts:17-26 | the header lines descend within 656 to 800 |
| CvBasic.LayoutPlaced | pdf/templates/cv/basic.ts:16-35 | every line is at the margin of the one page, each below the one before, none lower than 288 |
| CvBasic.ProjectLines | pdf/templates/cv/basic.ts:30 | one project line per project, in order |
| CvBasic.OneProjectTexts | pdf/templates/cv/basic.ts:30-32 | a project draws its line in size 11 and its detail and technologies in size 10 |
| CvBasic.ProjectsPlanTexts | pdf/templates/cv/basic.ts:29-34 | the size-11 lines are every project's line and the size-10 lines the details and technologies, in list order |
| Regex.ExpandPlain | lib/pdf/docxToPdf.ts:23 | a replacement without `$` is inserted as it stands |
| Regex.VerbatimForgetsPrefix | lib/pdf/docxToPdf.ts:23 | inserted verbatim, the text already scanned does not affect the result |
| Regex.PlainReplacementIsVerbatim | lib/pdf/docxToPdf.ts:23 | a replacement without `$` gives the same text whether or not `$` patterns are expanded |
| Regex.LitHead | lib/pdf/docxToPdf.ts:22-26 | a pattern that starts with a literal only matches where that character is, and consumes at least it |
| Regex.CopiedThrough | lib/pdf/docxToPdf.ts:23-26 | text without the pattern's first character is copied through unchanged |
| Regex.MatchLits | lib/pdf/docxToPdf.ts:22 | a run of literal atoms consumes exactly its text |
| Regex.TryRunsHit | lib/pdf/docxToPdf.ts:22-26 | backtracking stops at the first run length after which the rest matches |
| Regex.TryRunsMiss | lib/pdf/docxToPdf.ts:22-26 | when the rest fails, the run gives back one character |
| Regex.StarUnfold | lib/pdf/docxToPdf.ts:22-26 | `\s*` first tries its longest run |
| DocxToPdf.EntityOf | lib/pdf/docxToPdf.ts:5-13 | characters other than the five replaced ones are kept |
| DocxToPdf.EscapeTextAppend | lib/pdf/docxToPdf.ts:7-12 | escaping works piece by piece |
| DocxToPdf.AmpersandEntityStays | lib/pdf/docxToPdf.ts:8-12 | the `&amp;` written first is not touched by the later passes |
| DocxToPdf.EscapeCharwise | lib/pdf/docxToPdf.ts:7-12 | the five passes escape each character on its own, because ampersands are replaced first |
| DocxToPdf.EscapeRoundTrip | lib/pdf/docxToPdf.ts:5-13 | decoding the five entities gives back the original text |
| DocxToPdf.EscapedHasNoMarkup | lib/pdf/docxToPdf.ts:5-13 | no `<`, `>`, `"` or `'` survives escaping |
| DocxToPdf.EscapeHtml | lib/pdf/docxToPdf.ts:5-13 | null and undefined give ""; otherwise it fails exactly where `String()` throws, decodes back to `String(input)`, and has no tag or quote character |
| DocxToPdf.EscapedKeyIsLiteral | lib/pdf/docxToPdf.ts:15-22 | an escaped key reads back as its own characters, taken literally |
| DocxToPdf.EscapeRegExp | lib/pdf/docxToPdf.ts:15-17 | a key without regular-expression syntax characters is left as it is |
| DocxToPdf.ReadKeyPattern | lib/pdf/docxToPdf.ts:22 | whatever the key, its pattern is two braces, optional spaces, the key taken literally, optional spaces and two closing braces |
| DocxToPdf.ReadStripPattern | lib/pdf/docxToPdf.ts:26 | the final pattern is two braces, optional spaces, a run of non-closing characters, optional spaces and two closing braces |
| DocxToPdf.KeyTokenMatches | lib/pdf/docxToPdf.ts:22 | for a key that starts with a non-space, the key's pattern matches a whole `{{ key }}` token with any spaces around the key |
| DocxToPdf.StripTokenMatches | lib/pdf/docxToPdf.ts:26 | the final pattern matches a whole `{{…}}` whose body is not empty and has no closing brace, giving a space back when the body is only spaces |
| DocxToPdf.NoOpenUntouched | lib/pdf/docxToPdf.ts:22-26 | text without `{{` is not touched by either kind of pass |
| DocxToPdf.Entries | lib/pdf/docxToPdf.ts:21 | falsy data has no entries |
| DocxToPdf.PassesStayFailed | lib/pdf/docxToPdf.ts:21-24 | once escaping a value throws, the whole substitution throws |
| DocxToPdf.PassesAt | lib/pdf/docxToPdf.ts:21-24 | each entry's pass applies to the html the earlier passes left |
| DocxToPdf.ReplaceKey | lib/pdf/docxToPdf.ts:22-23 | html without `{{` is not changed by a key's pass |
| DocxToPdf.ReplacePlaceholders | lib/pdf/docxToPdf.ts:19-28 | the loop replaces each key's tokens in entry order, then deletes the leftover tokens |
| DocxToPdf.EscapeAvoids | lib/pdf/docxToPdf.ts:7-12 | escaping introduces no character outside the text and the five entities |
| DocxToPdf.EscapeText | lib/pdf/docxToPdf.ts:7-12 | text without the five characters is left as it is |
| DocxToPdf.TokenReplaced | lib/pdf/docxToPdf.ts:22-23 | a whole token is replaced and the scan goes on after it |
| DocxToPdf.ValueReplacesToken | lib/pdf/docxToPdf.ts:22-23 | inserted verbatim, the text takes the token's place and the text before it is kept |
| DocxToPdf.PlainValueIsVerbatim | lib/pdf/docxToPdf.ts:23 | a value without `$` is inserted the same way by the source's replace as verbatim |
| DocxToPdf.LeftoverDeleted | lib/pdf/docxToPdf.ts:25-26 | a leftover token is deleted and the text before it kept |
| DocxToPdf.NoOpenKept | lib/pdf/docxToPdf.ts:26 | text without `{{` passes the final deletion unchanged |
| DocxToPdf.NoDataKeepsHtml | lib/pdf/docxToPdf.ts:19-28 | with null, undefined or empty data, html without `{{` comes back unchanged |
| DocxToPdf.SingleEntryPasses | lib/pdf/docxToPdf.ts:21-24 | an object with one string field makes one pass with its escaped value |
| DocxToPdf.PlainTextReplacesToken | lib/pdf/docxToPdf.ts:22-23 | a text without `$` takes the place of the one token |
| DocxToPdf.OneKeyReplaced | lib/pdf/docxToPdf.ts:19-28 | a single string entry: its token is replaced by the escaped value and the rest is kept |
| DocxToPdf.InsertedTokenReachesLaterKey | lib/pdf/docxToPdf.ts:21-24 | braces are not escaped, so a token inside an earlier value is replaced by a later entry |
| DocxToPdf.StringValueEscaped | lib/pdf/docxToPdf.ts:5-13 | a string value is escaped as it stands |
| DocxToPdf.DollarsCollapse | lib/pdf/docxToPdf.ts:23 | as written, a value `$$` comes out as a single `$` |
| DocxToPdf.DollarsKeptByEscaping | lib/pdf/docxToPdf.ts:5-13 | escaping leaves `$$` alone, so the loss happens in the replace |
| DocxToPdf.DollarsExpanded | lib/pdf/docxToPdf.ts:23 | the replace turns `$$` into `$` |
| DocxToPdf.VerbatimValueReplaced | lib/pdf/docxToPdf.ts:22-23 | inserted verbatim, every value reaches the output as its escaped text, `$` included |
| DocxToPdf.TemplatePath | lib/pdf/docxToPdf.ts:32-38 | the CV template exactly for `cv`, the resume template for anything else |
| DocxToPdf.DocxTemplateToPdf | lib/pdf/docxToPdf.ts:31-42 | the converted html of the chosen template with the data substituted |
| Placeholder.HasMarker | lib/pdf/placeholder.ts:12-21 | without a `$$typeof` field there is no marker; a marker is the element symbol or a string |
| Placeholder.IsElement | lib/pdf/placeholder.ts:23-38 | only objects are elements, and an object with a string `type` and a null `props` is one, since null is object-typed |
| Placeholder.ElementText | lib/pdf/placeholder.ts:40-47 | a non-object has empty text; nullish children give empty text, and string children are the text |
| Placeholder.ChildrenText | lib/pdf/placeholder.ts:46-73 | nullish children give `""`, a string itself, a plain object never gives a text, and an array has a text exactly when each entry has one |
| Placeholder.ChildText | lib/pdf/placeholder.ts:54-59 | a string entry is itself, a nullish one `""`, and a plain object entry never gives a text |
| Placeholder.ChildTexts | lib/pdf/placeholder.ts:53-60 | one text per entry of a `children` array, in order, each the text of that entry |
| Placeholder.WrapText | lib/pdf/placeholder.ts:58 | the `{props: {children: c}}` wrapper is transparent: its text is the text of `c` |
| Placeholder.PlainObjectDiverges | lib/pdf/placeholder.ts:69-71 | a plain object as children, as an array entry, or wrapped, never yields a text: the extraction recurses without end |
| Placeholder.JoinSeparators | lib/pdf/placeholder.ts:52-63 | on an array of strings, element text joins the non-empty strings with no separator while `coerceText` joins them with one space |
| Placeholder.IndexOfKey | lib/pdf/placeholder.ts:81-82 | `Number(key)` as an array index: blank text is index 0 |
| Placeholder.Walk | lib/pdf/placeholder.ts:77-86 | no keys leave the value as it is, and one key is one step |
| Placeholder.GetValue | lib/pdf/placeholder.ts:76-87 | a path without a dot is a single lookup |
| Placeholder.Step | lib/pdf/placeholder.ts:77-86 | one reduce step: nullish and primitive accumulators give "", an array is indexed by the decimal key ("" when NaN, negative or past the end), an object is looked up by key |
| Placeholder.WalkStops | lib/pdf/placeholder.ts:78-79 | once a path walk meets a primitive or missing value it yields "" for every remaining segment |
| Placeholder.IndexStep | lib/pdf/placeholder.ts:80-84 | a decimal segment selects the array item at that index, or "" past the end |
| Placeholder.EmptySegmentIsZero | lib/pdf/placeholder.ts:81-83 | an empty segment on a non-empty array selects item 0, since `Number("")` is 0 |
| Placeholder.MissingKey | lib/pdf/placeholder.ts:76-87 | a key absent from the object renders as "" however the path continues |
| Placeholder.SplitJoinedPath | lib/pdf/placeholder.ts:77 | splitting a dot-joined path of dot-free segments gives back the segments |
| Placeholder.Render | lib/pdf/placeholder.ts:95-101 | a resolved string is inserted as it is; nullish values, arrays, objects and symbols insert "" |
| Placeholder.TokenText | lib/pdf/placeholder.ts:10 | the capture between the braces is the text without its surrounding whitespace, or its last character when it is all whitespace; never empty |
| Placeholder.MatchAfterOpen | lib/pdf/placeholder.ts:10 | a match exists exactly when a non-empty brace-free text is followed by `}}`; it captures that text's token and ends right after the `}}` |
| Placeholder.ResolveString | lib/pdf/placeholder.ts:93 | the empty string resolves to "" |
| Placeholder.NoOpeningUnchanged | lib/pdf/placeholder.ts:94 | text without `{{` comes back unchanged |
| Placeholder.PlaceholderReplaced | lib/pdf/placeholder.ts:94-102 | a leading `{{key}}` is replaced by the rendered value of the key and scanning resumes after it |
| Placeholder.SpacedPlaceholderReplaced | lib/pdf/placeholder.ts:10 | `{{ key }}` with any whitespace inside the braces is replaced like `{{key}}`, and scanning resumes after it |
| Placeholder.ReplaceTokens | lib/pdf/placeholder.ts:94-102 | text without `{` comes back unchanged |
| Placeholder.InsertedTextNotRescanned | lib/pdf/placeholder.ts:94-102 | a value that is itself a placeholder is inserted literally, not resolved again |
| Placeholder.LoneKey | lib/pdf/placeholder.ts:94-102 | a string that is exactly `{{key}}` (key without dots) becomes the rendered value the context holds at that key |
| Placeholder.IsPrimitiveEmpty | lib/pdf/placeholder.ts:105-114 | booleans, numbers and symbols are never empty; a string is empty exactly when it is all whitespace; the empty array and object are empty |
| Placeholder.ResolveValue | lib/pdf/placeholder.ts:116-137 | strings get their placeholders resolved, nullish values become "", numbers, NaN, booleans and symbols are kept |
| Placeholder.ResolveItems | lib/pdf/placeholder.ts:124-125 | each array item is resolved in order against the same context |
| Placeholder.ResolvedArray | lib/pdf/placeholder.ts:123-128 | a resolved array holds no empty value, and every non-empty resolved item appears in it |
| Placeholder.ResolveArrayAppend | lib/pdf/placeholder.ts:123-128 | resolving `a + b` is resolving `a` then `b`: the items keep their relative order |
| Placeholder.ResolvedObject | lib/pdf/placeholder.ts:129-135 | a resolved plain object has the same keys in the same order, each holding its resolved value |
| Placeholder.ResolvesAgainstOriginal | lib/pdf/placeholder.ts:180 | resolution is one pass against the original payload: a field holding `{{k}}` receives the original value of field `k` |
| Placeholder.ForcePlain | lib/pdf/placeholder.ts:139-158 | strings, numbers, NaN and booleans are kept; nullish values and symbols become "" |
| Placeholder.ForcePlainIsPlain | lib/pdf/placeholder.ts:139-158 | the result holds no nullish value and no symbol anywhere, arrays keep their length and plain objects their keys |
| Placeholder.CoerceText | lib/pdf/placeholder.ts:160-177 | a string gives itself, nullish values and symbols give "", and a plain object, sent through the wrapper, diverges |
| Placeholder.CoerceTexts | lib/pdf/placeholder.ts:165-166 | one coerced text per array item, in order |
| Placeholder.HistoryEntry | lib/pdf/placeholder.ts:185-190 | a rebuilt history entry has exactly the keys year, month, desc, status, in that order, each a string |
| Placeholder.QualificationEntry | lib/pdf/placeholder.ts:196-200 | a rebuilt qualification entry has exactly the keys year, month, desc, each a string |
| Placeholder.Sanitized | lib/pdf/placeholder.ts:183-202 | sanitising keeps exactly the rebuilt entries that are text records, with a field that is not blank, in their order; a list that is not an array gives none |
| Placeholder.ResolvedPayloadShape | lib/pdf/placeholder.ts:179-209 | the resolved payload's history and qualifications are exactly the {year, month, desc, status} and {year, month, desc} records rebuilt from the plain lists that are not blank, in input order |
| Placeholder.RecordKeep | lib/pdf/placeholder.ts:191 | a rebuilt record passes the emptiness filter exactly when one of its strings is not blank |
| Placeholder.Sanitize | lib/pdf/placeholder.ts:183-202 | a list that is not an array gives no entries, and every kept entry passes the emptiness filter |
| Placeholder.ResolvePayload | lib/pdf/placeholder.ts:179-209 | a resolved payload is an object whose history and qualifications are arrays |
| Placeholder.WithLists | lib/pdf/placeholder.ts:204-208 | the spread result is an object holding the two rebuilt lists under `history` and `qualifications`, and every other key as in the plain payload |
| ResumeTemplate.OrDash | lib/pdf/templates/Resume.tsx:92 | a value falls back to `-`, so the shown text is never empty, and a non-empty value is shown as it is |
| ResumeTemplate.FormatDate | lib/pdf/templates/Resume.tsx:80-87 | a formatted date is never empty |
| ResumeTemplate.DateBlank | lib/pdf/templates/Resume.tsx:80-87 | the date is `-` exactly when year and month are both blank; otherwise it ends in 年 or 月 |
| ResumeTemplate.DateRoundTrip | lib/pdf/templates/Resume.tsx:80-87 | the trimmed year and month are read back from the formatted date whenever neither contains 年 |
| ResumeTemplate.DateIgnoresSpace | lib/pdf/templates/Resume.tsx:81-82 | surrounding whitespace in year or month does not change the date |
| ResumeTemplate.AddressLine | lib/pdf/templates/Resume.tsx:127 | the address line has no surrounding whitespace |
| ResumeTemplate.AddressParts | lib/pdf/templates/Resume.tsx:127 | no postal code: the address alone; a postal code: 〒, the code, one space and the address, the space dropped when there is no address |
| ResumeTemplate.InfoRow | lib/pdf/templates/Resume.tsx:89-94 | the row keeps its caption and its value is never empty |
| ResumeTemplate.ParagraphBlock | lib/pdf/templates/Resume.tsx:96-101 | the block keeps its title and its text is never empty |
| ResumeTemplate.Left | lib/pdf/templates/Resume.tsx:122-129 | three rows (birth date, gender, current address), none blank |
| ResumeTemplate.Right | lib/pdf/templates/Resume.tsx:130-139 | five rows (phone, e-mail, contact address, contact phone, contact e-mail), none blank |
| ResumeTemplate.HistoryLine | lib/pdf/templates/Resume.tsx:151 | a history line is never empty |
| ResumeTemplate.HistoryListing | lib/pdf/templates/Resume.tsx:144-155 | `-` exactly when there is no history; otherwise one dated, non-blank item per entry |
| ResumeTemplate.QualificationListing | lib/pdf/templates/Resume.tsx:160-169 | `-` exactly when there are no qualifications; otherwise one dated, non-blank item per entry |
| ResumeTemplate.Paragraphs | lib/pdf/templates/Resume.tsx:172-177 | six paragraphs, none blank |
| ResumeTemplate.Render | lib/pdf/templates/Resume.tsx:103-181 | no line of the page is blank, and each list shows `-` exactly when it is empty |
| ResumeTemplate.NameFallback | lib/pdf/templates/Resume.tsx:117 | the name is shown, or 氏名未設定 when it is empty |
| ResumeTemplate.SelfPrFallback | lib/pdf/templates/Resume.tsx:174 | the self-PR is the generated one, else the third answer, else `-` |
| ResumeTemplate.ContactRows | lib/pdf/templates/Resume.tsx:104-111 | with the same address the contact rows repeat the current address, phone and e-mail; otherwise they show the contact fields |
| ResumeTemplate.HistoryLineDescribed | lib/pdf/templates/Resume.tsx:151 | for trimmed entries the line is the description followed by the status in full-width brackets, either possibly missing, and `-` when both are |
| ResumeTemplate.HistoryShown | lib/pdf/templates/Resume.tsx:147-154 | each history entry is listed in order with its formatted date and described text |
| ResumeTemplate.QualificationShown | lib/pdf/templates/Resume.tsx:163-168 | each qualification is listed in order with its formatted date and its description or `-` |
| CareerTemplate.Or | lib/pdf/templates/Career.tsx:65 | `a \|\| b` on strings gives one of the two, and is empty exactly when both are |
| CareerTemplate.SplitRuns | lib/pdf/templates/Career.tsx:88 | at least one piece, none holding the separator; text without it is a single piece |
| CareerTemplate.SplitRunsLikeSplit | lib/pdf/templates/Career.tsx:88 | splitting on runs of newlines and on each newline give the same first piece and the same pieces once blanks are dropped |
| CareerTemplate.SkillLinesAsSplit | lib/pdf/templates/Career.tsx:87-90 | the skill bullets are the lines split on every newline, trimmed, blank ones dropped |
| CareerTemplate.SkillLines | lib/pdf/templates/Career.tsx:87-90 | empty skills give no bullets, and no bullet is empty |
| CareerTemplate.SkillLinesClean | lib/pdf/templates/Career.tsx:87-90 | every bullet is non-empty, trimmed and a single line |
| CareerTemplate.SkillLinesOfJoin | lib/pdf/templates/Career.tsx:87-90 | non-blank single lines joined by newlines come back as the bullets, trimmed, all of them and in order |
| CareerTemplate.NewlinesOnlyNoBullets | lib/pdf/templates/Career.tsx:85-97 | skills made only of newlines give an empty bullet list, and no `-` fallback |
| CareerTemplate.TrimmedGivesBullet | lib/pdf/templates/Career.tsx:87-90 | non-empty trimmed text gives at least one bullet |
| CareerTemplate.ContactLine | lib/pdf/templates/Career.tsx:70 | the contact line has no surrounding whitespace |
| CareerTemplate.ContactLineParts | lib/pdf/templates/Career.tsx:70 | both parts around ` / `, a missing one leaving a bare `/` beside the other, and `/` alone when both are empty |
| CareerTemplate.SkillsOf | lib/pdf/templates/Career.tsx:85-100 | bullets exactly when there are generated skills; otherwise a non-empty text |
| CareerTemplate.Render | lib/pdf/templates/Career.tsx:59-110 | title, summary, details and self-PR are never empty |
| CareerTemplate.TitleFallback | lib/pdf/templates/Career.tsx:64-65 | the title is the name or 職務経歴書; the subtitle is the summary without its `-` fallback |
| CareerTemplate.SectionFallbacks | lib/pdf/templates/Career.tsx:75-80 | summary and details show the generated text, else the answer, else `-` |
| CareerTemplate.PrFallback | lib/pdf/templates/Career.tsx:105 | the self-PR shows the generated text, else the fourth answer, else the fifth, else `-` |
| CareerTemplate.ParsedSkills | lib/pdf/templates/Career.tsx:85-97 | on a parsed payload generated skills give at least one bullet, each a trimmed single line |
| CareerPrompt.DropCR | lib/prompt/builders/career.ts:5 | a trailing `\r` before a line break is removed, and nothing else |
| CareerPrompt.Take | lib/prompt/builders/career.ts:15 | `slice(0, n)` keeps everything when there are at most `n` items, else the first `n` |
| CareerPrompt.ToLines | lib/prompt/builders/career.ts:3-8 | no text gives no lines, and no line is empty |
| CareerPrompt.ToList | lib/prompt/builders/career.ts:10-16 | no text gives no items, and there are at most ten |
| CareerPrompt.ToLinesIgnoresCR | lib/prompt/builders/career.ts:3-8 | splitting on `\r?\n` then trimming equals splitting on `\n` then trimming, blank lines dropped |
| CareerPrompt.ToLinesClean | lib/prompt/builders/career.ts:3-8 | every kept line is non-empty, trimmed and a single line |
| CareerPrompt.ToLinesOfJoin | lib/prompt/builders/career.ts:3-8 | non-blank lines written one per row come back trimmed and in order |
| CareerPrompt.ToLinesOfCRLF | lib/prompt/builders/career.ts:3-8 | a text with CRLF line ends gives the same lines as one with LF line ends |
| CareerPrompt.ToListClean | lib/prompt/builders/career.ts:10-16 | at most ten items, each non-empty, trimmed and without a comma |
| CareerPrompt.ToListOfJoin | lib/prompt/builders/career.ts:10-16 | comma-separated non-blank items come back trimmed and in order, cut at ten |
| CareerPrompt.AnswerOr | lib/prompt/builders/career.ts:25-30 | `answers[key] ?? ''` is never nullish and keeps a string answer |
| CareerPrompt.Item | lib/prompt/builders/career.ts:24-31 | an achievement has exactly the keys title, goal, actions, result, metrics, role, each the matching `achN_` answer or "" |
| CareerPrompt.HasContent | lib/prompt/builders/career.ts:32 | an achievement with content is an object with some field; one without string fields has none |
| CareerPrompt.Achievements | lib/prompt/builders/career.ts:23-32 | at most three achievements are passed on, each with content |
| CareerPrompt.ContentIffAnswered | lib/prompt/builders/career.ts:32 | an achievement has content exactly when one of its six answers is a string that trims to something |
| CareerPrompt.AchievementKeptIff | lib/prompt/builders/career.ts:23-32 | an achievement is passed on exactly when it was answered, and at most three are |
| CareerPrompt.AchievementsComplete | lib/prompt/builders/career.ts:23-32 | every achievement passed on has the six parts, none missing |
| CareerPrompt.AchievementsAll | lib/prompt/builders/career.ts:23-32 | with all three answered, all three are passed on in order |
| CareerPrompt.AchievementsNone | lib/prompt/builders/career.ts:23-32 | with none answered, none is passed on |
| CareerPrompt.Derive | lib/prompt/builders/career.ts:19-32 | at most ten tools, three deliverables and three achievements |
| CareerPrompt.PeriodFlag | lib/prompt/builders/career.ts:44 | `isCurrent` in the payload is always a boolean, the truth of the answer, false when it is missing |
| CareerPrompt.Payload | lib/prompt/builders/career.ts:34-65 | the payload is an object with exactly the keys summary, position, achievements and intent, in that order |
| CareerPrompt.PayloadLists | lib/prompt/builders/career.ts:34-65 | the payload's responsibilities, tools, deliverables and achievements are the split-out answers and the answered achievements |
| CareerPrompt.BuildCareerPrompt | lib/prompt/builders/career.ts:18-86 | the prompt carries the payload built from the answers |
| CareerPrompt.SystemFixed | lib/prompt/builders/career.ts:67-71 | the system text is the same for every input: three fixed lines joined by newlines |
| CareerPrompt.UserEmbedsPayload | lib/prompt/builders/career.ts:73-83 | the user text is the fixed head, the payload's JSON, and the fixed tail, on their own lines |
| ResumeForm.ProcessHistory | components/ResumeForm.tsx:92 | a submitted history row keeps its year, month and status; only the description changes |
| ResumeForm.ProcessQualification | components/ResumeForm.tsx:93 | a submitted qualification keeps its year and month, and its description is empty exactly when it was |
| ResumeForm.ProcessHistories | components/ResumeForm.tsx:92 | one processed row per history row, in order |
| ResumeForm.ProcessQualifications | components/ResumeForm.tsx:93 | one processed row per qualification, in order |
| ResumeForm.Form.OnSubmit | components/ResumeForm.tsx:84-96 | the form data is changed in place by the contact copy, and what is confirmed is that data with the processed history and qualifications |
| ResumeForm.ContactCopied | components/ResumeForm.tsx:85-91 | with the same address the five contact fields repeat the current ones; otherwise nothing changes; no other field is ever touched |
| ResumeForm.HistoryDescription | components/ResumeForm.tsx:92 | for trimmed text the new description is description and status separated by one space, or whichever of them is not empty |
| ResumeForm.DefaultRowSubmitted | components/ResumeForm.tsx:77 | an untouched default history row is submitted with the description 入社 |
| ResumeForm.DefaultQualificationSubmitted | components/ResumeForm.tsx:78 | the default qualification row is submitted unchanged, empty |
| ResumeForm.QualificationMarked | components/ResumeForm.tsx:93 | a non-empty qualification keeps its text, followed by ` 取得` |
| ResumeForm.SpaceIsFilled | components/ResumeForm.tsx:12-14 | the required fields are not trimmed: a lone space passes although it is blank |
| ResumeForm.RequiredFilled | components/ResumeForm.tsx:12-14 | a required field left empty fails the rule; a lone space in each passes |
| ResumeForm.WithContact | components/ResumeForm.tsx:85-91 | with the same address the five contact fields take the current ones; otherwise nothing changes; the address, phone, mail, name, history and qualifications are never changed |
| CvFields.QuestionLines | components/CvFields.tsx:30-31 | five lines, the i-th being `Q{i+1}: ` and the i-th answer |
| CvFields.CvPrompt | components/CvFields.tsx:30-33 | the prompt begins with the fixed instruction on its own line |
| CvFields.PromptLines | components/CvFields.tsx:30-33 | the prompt is the fixed instruction, a newline, and the lines `Q1: ` to `Q5: ` each followed by its answer, in order |
| CvFields.AnswersRecoverable | components/CvFields.tsx:30-33 | answers without line breaks can be read back from the prompt's five question lines |
| CvFields.JsonSlice | components/CvFields.tsx:39-41 | the slice always starts with `{` and ends with `}` |
| CvFields.SliceStripsAround | components/CvFields.tsx:39-41 | text before the first `{` and after the last `}` is cut away, leaving the object |
| CvFields.SliceFallback | components/CvFields.tsx:39-41 | with no `{`, or no `}` after the first `{` (none at all, or only earlier ones), the slice is `{}` |
| CvFields.Generated | components/CvFields.tsx:43-46 | the generated value is the parsed field when that is not nullish, and `""` otherwise |
| CvFields.CvForm.SetLoading | components/CvFields.tsx:35 | records the loading flag and changes no form field |
| CvFields.CvForm.GenerateCv | components/CvFields.tsx:29-52 | the loading text is set and the indicator goes on then off in every case; the four fields take the parsed values exactly when the answer arrives and parses to a non-nullish value, and are otherwise left as they were |
| Tabs.Position | components/ui/Tabs.tsx:32 | `indexOf`: the first position holding the value, or -1 exactly when it is absent |
| Tabs.PositionOfDistinct | components/ui/Tabs.tsx:23 | in a list without repeats the value at `i` is found at `i` |
| Tabs.NextIndex | components/ui/Tabs.tsx:34-38 | the new position is in range; Home goes to the first tab, End to the last, and other keys stay |
| Tabs.RightStep | components/ui/Tabs.tsx:35 | the right arrow steps one tab on, from the last to the first |
| Tabs.LeftStep | components/ui/Tabs.tsx:36 | the left arrow steps one tab back, from the first to the last |
| Tabs.ArrowsUndo | components/ui/Tabs.tsx:35-36 | right then left, or left then right, comes back to the starting tab |
| Tabs.SingleTab | components/ui/Tabs.tsx:34-39 | with one tab no key moves, so nothing is changed or consumed |
| Tabs.RightTimesMoves | components/ui/Tabs.tsx:35 | up to one round, `k` presses of the right arrow move `k` places, wrapping past the last tab |
| Tabs.FullCircle | components/ui/Tabs.tsx:35 | as many right presses as there are tabs come back to the start, and every tab is reached within that round |
| Tabs.AfterKey | components/ui/Tabs.tsx:31-40 | an unregistered active value is left alone; a registered one moves to a registered value |
| Tabs.TabIndex | components/ui/Tabs.tsx:55 | the tab index is 0 exactly for the selected tab, else -1 |
| Tabs.OneFocusable | components/ui/Tabs.tsx:47-67 | with distinct registered values, exactly the active tab is in the keyboard order and exactly its panel is shown |
| Tabs.TabSet.constructor | components/ui/Tabs.tsx:17-19 | a new tab set has the default value active and nothing registered |
| Tabs.TabSet.Register | components/ui/Tabs.tsx:23 | the value is appended unless already present; the values stay distinct and the active one is unchanged |
| Tabs.TabSet.Click | components/ui/Tabs.tsx:57 | a click makes the tab's value active and registers nothing |
| Tabs.TabSet.KeyDown | components/ui/Tabs.tsx:31-40 | the active value moves as the key says along the registered order, and the key is consumed exactly when the active value changed |

## Left out

- Reading the DOCX template, converting it with mammoth, and the path lookup against the working directory are I/O. `DocxToPdf.DocxTemplateToPdf` takes the conversion as a parameter.
- `JSON.parse` is a parameter of `PdfApi.Respond`, `PdfApi.Handle` and `CvFields.CvForm.GenerateCv`. `JSON.stringify(·, null, 2)` is a parameter of `CareerPrompt.BuildCareerPrompt`.
- The clock behind `generatedAt` is the `now` parameter. The renderers behind the dispatch table are the `render` parameter. The text generator call in the generate button is the `generate` parameter.
- pdf-lib's fonts, colours, page objects and saved bytes are not modelled: drawing is a log of pages and text positions. The Helvetica encoder would reject the Japanese text some renderers draw, and the model makes no claim that those renders succeed.
- React and @react-pdf/renderer layout, styles and font registration are not modelled. The templates are modelled by the text they lay out.
- `trim` uses the full JavaScript whitespace set; `toLowerCase` lowers ASCII letters only. Lengths in the validators count characters, not UTF-16 code units.
- Placeholder.IndexOfKey: `Number(key)` is modelled for unsigned decimal integers with surrounding spaces. Signed, hexadecimal, exponent and fractional keys are treated like NaN, so a key such as `-0`, `+1` or `1.0`, which the source reads as an index, gives `""`.
- Zod.NumberOf: `coerce.number` is modelled for optionally signed decimal integers. Hexadecimal, exponent and fractional forms are treated like NaN. Arrays also give `None`, although `Number([])` is 0 and `Number` of a one-item array is that of its item's text.
- Numbers in JavaScript values are integers or NaN; floating point is not modelled.
- zod's error messages and its e-mail validator are not modelled. Only which inputs parse, and to what, is modelled.
- Inherited `Object.prototype` members are absent from objects. The exception is the template registry's `in` test, which is modelled with the prototype's member names.
- A renderer whose promise rejects is the `render` parameter giving `None`, and the handler then throws (`Threw`). The framework's 500 answer to a throw, and the default headers of `res.json`/`res.send`, are not modelled. The debug renderer is a value of the renderer choice, not a PDF.
- ResumeBasic.Render: the input is the declared record shape only (`ResumeData` with string fields). The source takes `data: any`. Three cases are not modelled:
  - a `null` or `undefined` entry in `educations` or `jobs`, where reading `period` throws and the render rejects;
  - non-string fields, which the template literals draw as `String(v)` (`5`, `[object Object]`), and a truthy non-string contact, which gives for example `Email: 5`;
  - a non-string `name`, which is handed to `drawText` unconverted.
- CvBasic.Render: the input is the declared record shape only (`CvData` with string fields and string lists). The source takes `data: any`. Four cases are not modelled:
  - a `null` or `undefined` project, where reading `period` throws and the render rejects;
  - a non-array `tech` with a `length`, such as a string, which passes `p.tech?.length` and then throws at `p.tech.join`;
  - non-string fields and skills, which are drawn as `String(v)`;
  - a non-string `name` or `summary`, which is handed to `drawText` unconverted.
- DocxToPdf.KeyTokenMatches: stated only for keys that start with a non-space. The source also matches the empty key and keys with leading spaces, through backtracking of the greedy `\s*`, and that backtracking is not proved.
- A `TypeError` from reading a property of `null` or `undefined` is modelled as `None` in the lid mappers. So is the unbounded recursion of element text extraction on a plain object child in `Placeholder`.
- Placeholder.ElementText, Placeholder.ChildrenText, Placeholder.CoerceText: the divergence is modelled as `None` and proved for plain object children. The resulting `RangeError` from the call stack is not modelled.
- CareerPrompt.BuildCareerPrompt: answers that are not strings (numbers, booleans) in the free-text fields are treated as missing by `toLines`/`toList`. In the source they would throw on `split`.
- CareerPrompt.SystemFixed: states that the system text is the same three fixed lines for every input. It does not prove that those lines hold no line break.
- CvFields.CvForm.GenerateCv: the answers are taken as strings, with `v || ""` already applied. The text of the failure alert and the thrown error's message are not modelled.
- The resume form's validation alert and console output are not modelled. Neither is its React tab state, which only switches which fields are displayed.
- Tabs: the React context and the timing of re-renders are not modelled. Registration is the `Register` method. `preventDefault` is the flag `KeyDown` returns.
- The question forms, their localStorage timers, and the prompt in `components/ResumeFields.tsx` (which mirrors CvFields) are not part of this model. Neither are the HTTP helpers, the headless browser, the scripts or the vendor shims.

## Findings

| source | as written | input that shows it | evidently intended | confidence | as-written member | corrected member |
|---|---|---|---|---|---|---|
| lib/pdf/buildResumePdf.ts:23-35 | after a cursor reset a new page is added, but drawing goes on with the first page object | a section list long enough for the cursor to fall below 80 or 60 | draw on the page just added, so no text is drawn over earlier text | high; not executed | BuildResumePdf.AsWrittenOverdraw | BuildResumePdf.CorrectedNoOverdraw |
| lib/pdf/docxToPdf.ts:23 | the escaped value is passed to `replace` as a replacement string, so `$` patterns in it are expanded | data `{ k: "$$" }` and the template `{{k}}` give `$` | insert the escaped value verbatim | high; not executed | DocxToPdf.DollarsCollapse | DocxToPdf.VerbatimValueReplaced |
| lib/zod/selfpr.ts:29-34 | the optional trimmed string accepts a blank answer first, so the `''` alternative that maps to undefined is never reached | `metrics: "  "` parses to `metrics: ""` | a blank optional answer is left out | high; not executed | SelfPrSchema.BlankMetricsKept | SelfPrSchema.IntendedNoBlank |
| lib/pdf/template-registry.ts:17 | `in REGISTRY` also finds inherited members | `resolveTemplate("constructor")` returns the key `constructor` with `Object` as its component | only the registry's own keys resolve | high; not executed | TemplateRegistry.ConstructorResolves | TemplateRegistry.OwnLookupSound |
