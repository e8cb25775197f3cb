/** The resume page of the PDF service, as the text it lays out: a header with the name, two columns of
    labelled rows, the education/work history and the qualifications as dated lists, and six paragraphs.
    Every empty value is shown as `-`, so no row of the page is ever blank. Fonts, sizes and positions are
    the renderer's business and are not part of this model. */
module ResumeTemplate {
  import opened Base
  import opened Strings
  import opened FormData
  import opened PdfSchema

  /** What an empty value is shown as. */
  const Empty: string := "-"

  /** `value || EMPTY`. */
  function OrDash(v: string): (r: string)
    ensures r != ""
    ensures v != "" ==> r == v
  {
    if v == "" then Empty else v
  }

  /** A caption and the text shown under it. */
  datatype Row = Row(caption: string, value: string)

  /** One entry of a dated list: the date on the left, the description on the right. */
  datatype Dated = Dated(date: string, body: string)

  /** A dated list: a lone `-` when there are no entries, otherwise one line per entry in order. */
  datatype Listing = Placeholder | Listed(items: seq<Dated>)

  /** The page: name and reading, the left and right columns, the two lists and the paragraphs. */
  datatype Sheet = Sheet(name: string, kana: string, left: seq<Row>, right: seq<Row>,
                         history: Listing, qualifications: Listing, paragraphs: seq<Row>)

  // ---- dates ----

  /** `formatDate(year, month)`: the trimmed parts with 年 and 月, or `-` when both are blank. */
  function FormatDate(year: string, month: string): (r: string)
    ensures r != ""
  {
    var y := Trim(year);
    var m := Trim(month);
    if y == "" && m == "" then Empty
    else if y == "" then m + "月"
    else if m == "" then y + "年"
    else y + "年" + m + "月"
  }

  /** Reads a formatted date back into its year and month (the inverse of `FormatDate`). */
  function ReadDate(t: string): (string, string)
  {
    if t == Empty then ("", "")
    else
      var parts := Split(t, '年');
      var y := if |parts| == 1 then "" else parts[0];
      var rest := parts[|parts| - 1];
      (y, if rest == "" then "" else rest[..|rest| - 1])
  }

  /** The date shows `-` exactly when both parts are blank; otherwise it ends in 年 or 月. */
  lemma DateBlank(year: string, month: string)
    ensures FormatDate(year, month) == Empty <==> Blank(year) && Blank(month)
    ensures FormatDate(year, month) != Empty ==> FormatDate(year, month)[|FormatDate(year, month)| - 1] in "年月"
  {
  }

  /** A date is unambiguous: the year and the month, trimmed, are read back from it whenever neither
      contains 年 itself (as numbers never do). */
  lemma DateRoundTrip(year: string, month: string)
    requires '年' !in Trim(year) && '年' !in Trim(month)
    ensures ReadDate(FormatDate(year, month)) == (Trim(year), Trim(month))
  {
    var y := Trim(year);
    var m := Trim(month);
    var t := FormatDate(year, month);
    if y == "" && m == "" {
    } else if y == "" {
      SplitWithout(m + "月", '年');
      assert (m + "月")[..|m|] == m;
    } else if m == "" {
      SplitAfterPiece(y, "", '年');
      assert y + "年" == y + ['年'] + "";
    } else {
      SplitAfterPiece(y, m + "月", '年');
      SplitWithout(m + "月", '年');
      assert y + "年" + m + "月" == y + ['年'] + (m + "月");
      assert (m + "月")[..|m|] == m;
    }
  }

  /** Surrounding whitespace in the parts does not change the date. */
  lemma DateIgnoresSpace(year: string, month: string)
    ensures FormatDate(Trim(year), Trim(month)) == FormatDate(year, month)
  {
    TrimIdempotent(year);
    TrimIdempotent(month);
  }

  // ---- rows ----

  /** The address line: `〒` and the postal code when there is one, then the address, trimmed. */
  function AddressLine(postal: string, address: string): (r: string)
    ensures Trimmed(r)
  {
    Trim((if postal != "" then "〒" + postal + " " else "") + address)
  }

  /** Without a postal code the line is the address alone; with one, the code and the address are
      separated by one space, and the space disappears when there is no address. */
  lemma AddressParts(postal: string, address: string)
    requires Trimmed(postal) && Trimmed(address)
    ensures postal == "" ==> AddressLine(postal, address) == address
    ensures postal != "" && address != "" ==> AddressLine(postal, address) == "〒" + postal + " " + address
    ensures postal != "" && address == "" ==> AddressLine(postal, address) == "〒" + postal
  {
    if postal == "" {
      assert "" + address == address;
      TrimNoSpaceEnds(address);
    } else if address != "" {
      var s := "〒" + postal + " " + address;
      assert s[0] == '〒' && s[|s| - 1] == address[|address| - 1];
      TrimNoSpaceEnds(s);
    } else {
      var s := "〒" + postal;
      assert s + [' '] + address == s + [' '];
      TrimDropsTrailingSpace(s, ' ');
      assert s[0] == '〒' && s[|s| - 1] == postal[|postal| - 1];
      TrimNoSpaceEnds(s);
    }
  }

  /** `InfoRow`. */
  function InfoRow(caption: string, value: string): (r: Row)
    ensures r.caption == caption && r.value != ""
  {
    Row(caption, OrDash(value))
  }

  /** `ParagraphBlock`. */
  function ParagraphBlock(title: string, value: string): (r: Row)
    ensures r.caption == title && r.value != ""
  {
    Row(title, OrDash(value))
  }

  /** The contact details: the current address, phone and e-mail when the contact is the same as the
      current address, the separate contact fields otherwise. */
  datatype Contact = Contact(postal: string, address: string, phone: string, email: string)

  function ContactOf(p: ResumePayload): Contact
  {
    if p.sameAsCurrentAddress then
      Contact(Text(p, "address_postal_code"), Text(p, "address_main"), Text(p, "phone"), Text(p, "email"))
    else
      Contact(Text(p, "contact_address_postal_code"), Text(p, "contact_address_main"),
              Text(p, "contact_phone"), Text(p, "contact_email"))
  }

  /** Birth date, gender and current address. */
  function Left(p: ResumePayload): (r: seq<Row>)
    ensures |r| == 3 && forall row :: row in r ==> row.value != ""
  {
    [ InfoRow("生年月日", Text(p, "birth_date")), InfoRow("性別", GenderText(p.gender)),
      InfoRow("現住所", AddressLine(Text(p, "address_postal_code"), Text(p, "address_main"))) ]
  }

  /** Phone, e-mail, and the contact address, phone and e-mail. */
  function Right(p: ResumePayload): (r: seq<Row>)
    ensures |r| == 5 && forall row :: row in r ==> row.value != ""
  {
    var c := ContactOf(p);
    [ InfoRow("電話", Text(p, "phone")), InfoRow("メール", Text(p, "email")),
      InfoRow("連絡先", AddressLine(c.postal, c.address)), InfoRow("連絡先電話", c.phone),
      InfoRow("連絡先メール", c.email) ]
  }

  // ---- lists ----

  /** The description of a history entry, with the status in full-width brackets when there is one. */
  function HistoryLine(e: HistoryEntry): (r: string)
    ensures r != ""
  {
    OrDash(Trim(e.desc + (if e.status != "" then "（" + e.status + "）" else "")))
  }

  function HistoryListing(entries: seq<HistoryEntry>): (r: Listing)
    ensures r.Placeholder? <==> entries == []
    ensures r.Listed? ==> |r.items| == |entries| && forall d :: d in r.items ==> d.date != "" && d.body != ""
  {
    if |entries| == 0 then Placeholder
    else Listed(seq(|entries|, i requires 0 <= i < |entries| =>
                  Dated(FormatDate(entries[i].year, entries[i].month), HistoryLine(entries[i]))))
  }

  function QualificationListing(entries: seq<QualificationEntry>): (r: Listing)
    ensures r.Placeholder? <==> entries == []
    ensures r.Listed? ==> |r.items| == |entries| && forall d :: d in r.items ==> d.date != "" && d.body != ""
  {
    if |entries| == 0 then Placeholder
    else Listed(seq(|entries|, i requires 0 <= i < |entries| =>
                  Dated(FormatDate(entries[i].year, entries[i].month), OrDash(entries[i].desc))))
  }

  // ---- the page ----

  /** The motivation, strengths and weaknesses, self-PR, commute, dependants and special requests; the
      self-PR is the generated one when there is one. */
  function Paragraphs(p: ResumePayload): (r: seq<Row>)
    ensures |r| == 6 && forall row :: row in r ==> row.value != ""
  {
    [ ParagraphBlock("志望動機", Text(p, "q1_resume")), ParagraphBlock("長所・短所", Text(p, "q2_resume")),
      ParagraphBlock("自己PR", if Text(p, "generated_resume_pr") != "" then Text(p, "generated_resume_pr")
                               else Text(p, "q3_resume")),
      ParagraphBlock("通勤時間・最寄り駅", Text(p, "q4_resume")), ParagraphBlock("扶養家族・配偶者", Text(p, "q5_resume")),
      ParagraphBlock("特記事項", Text(p, "special_requests")) ]
  }

  /** No line of the page is blank. */
  predicate NoBlank(s: Sheet)
  {
    s.name != ""
    && (forall r :: r in s.left + s.right + s.paragraphs ==> r.value != "")
    && (s.history.Listed? ==> forall d :: d in s.history.items ==> d.date != "" && d.body != "")
    && (s.qualifications.Listed? ==> forall d :: d in s.qualifications.items ==> d.date != "" && d.body != "")
  }

  /** `ResumeTemplate({ data: p })`: the page laid out for a parsed payload. */
  function Render(p: ResumePayload): (r: Sheet)
    ensures NoBlank(r)
    ensures r.history.Placeholder? <==> p.history == []
    ensures r.qualifications.Placeholder? <==> p.qualifications == []
  {
    Sheet(if Text(p, "name") != "" then Text(p, "name") else "氏名未設定", Text(p, "name_furigana"),
          Left(p), Right(p), HistoryListing(p.history), QualificationListing(p.qualifications), Paragraphs(p))
  }

  // ---- what the page shows ----

  /** The name falls back to 氏名未設定. */
  lemma NameFallback(p: ResumePayload)
    ensures Render(p).name == (if Text(p, "name") == "" then "氏名未設定" else Text(p, "name"))
  {
  }

  /** The self-PR paragraph is the generated one, else the third answer, else `-`. */
  lemma SelfPrFallback(p: ResumePayload)
    ensures Paragraphs(p)[2].value
            == (if Text(p, "generated_resume_pr") != "" then Text(p, "generated_resume_pr")
                else if Text(p, "q3_resume") != "" then Text(p, "q3_resume") else Empty)
  {
  }

  /** With the contact the same as the current address, the contact rows repeat the current address,
      phone and e-mail; otherwise they show the contact fields. */
  lemma ContactRows(p: ResumePayload)
    ensures p.sameAsCurrentAddress ==>
              Right(p)[2].value == Left(p)[2].value && Right(p)[3].value == Right(p)[0].value
              && Right(p)[4].value == Right(p)[1].value
    ensures !p.sameAsCurrentAddress ==>
              Right(p)[2].value
                == OrDash(AddressLine(Text(p, "contact_address_postal_code"), Text(p, "contact_address_main")))
              && Right(p)[3].value == OrDash(Text(p, "contact_phone"))
              && Right(p)[4].value == OrDash(Text(p, "contact_email"))
  {
  }

  /** The description and status of a history entry as the page is meant to show them. */
  function Described(desc: string, status: string): string
  {
    if desc == "" && status == "" then Empty
    else if status == "" then desc
    else desc + "（" + status + "）"
  }

  /** For trimmed entries, as a parsed payload has, the history line is the description followed by the
      bracketed status, either of them possibly missing, and `-` when both are. */
  lemma HistoryLineDescribed(e: HistoryEntry)
    requires Trimmed(e.desc) && Trimmed(e.status)
    ensures HistoryLine(e) == Described(e.desc, e.status)
  {
    if e.status == "" {
      assert e.desc + "" == e.desc;
      TrimNoSpaceEnds(e.desc);
    } else {
      var s := e.desc + ("（" + e.status + "）");
      assert s[|s| - 1] == '）';
      assert s[0] == if e.desc == "" then '（' else e.desc[0];
      TrimNoSpaceEnds(s);
    }
  }

  /** Each history entry of a parsed payload is listed in order, with its date and described text. */
  lemma HistoryShown(p: ResumePayload, i: nat)
    requires Normal(p) && i < |p.history|
    ensures Render(p).history.items[i]
            == Dated(FormatDate(p.history[i].year, p.history[i].month), Described(p.history[i].desc, p.history[i].status))
  {
    var e := p.history[i];
    assert e in p.history;
    HistoryLineDescribed(e);
  }

  /** Each qualification is listed in order, with its date and its description or `-`. */
  lemma QualificationShown(p: ResumePayload, i: nat)
    requires i < |p.qualifications|
    ensures Render(p).qualifications.items[i].date
            == FormatDate(p.qualifications[i].year, p.qualifications[i].month)
    ensures Render(p).qualifications.items[i].body
            == (if p.qualifications[i].desc == "" then Empty else p.qualifications[i].desc)
  {
  }
}
