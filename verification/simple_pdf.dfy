/** The hand-written PDF 1.4 emitter (pdf/templates/shared/simplePdf.ts):
    literal-string escaping (ISO 32000-1:2008, section 7.3.4.2), a content
    stream of text-showing operators (sections 9.3 and 9.4), five indirect
    objects written one after the other with their byte offsets, the
    cross-reference table (section 7.5.4) and the trailer (section 7.5.5).
    Every length and offset is counted in UTF-8 bytes, as Buffer does. */
module SimplePdf {
  import opened Base
  import opened Strings

  type Byte = b: int | 0 <= b < 256

  // ---- UTF-8, as Buffer.from(text, 'utf8') encodes it ----

  function Utf8Char(c: char): (r: seq<Byte>)
    ensures 1 <= |r| <= 4
    ensures (c as int < 0x80) <==> |r| == 1
    ensures c as int < 0x80 ==> r == [c as int]
  {
    var n := c as int;
    if n < 0x80 then [n]
    else if n < 0x800 then [0xC0 + n / 64, 0x80 + n % 64]
    else if n < 0x10000 then [0xE0 + n / 4096, 0x80 + (n / 64) % 64, 0x80 + n % 64]
    else [0xF0 + n / 262144, 0x80 + (n / 4096) % 64, 0x80 + (n / 64) % 64, 0x80 + n % 64]
  }

  /** The characters' encodings, one per character. */
  function CharCodes(s: string): (r: seq<seq<Byte>>)
    ensures |r| == |s|
  {
    seq(|s|, i requires 0 <= i < |s| => Utf8Char(s[i]))
  }

  /** `Buffer.from(s, 'utf8')`: the characters' encodings one after the other. */
  function Utf8(s: string): seq<Byte>
  {
    Concat(CharCodes(s))
  }

  lemma Utf8Append(a: string, b: string)
    ensures Utf8(a + b) == Utf8(a) + Utf8(b)
  {
    assert CharCodes(a + b) == CharCodes(a) + CharCodes(b);
    ConcatAppend(CharCodes(a), CharCodes(b));
  }

  predicate IsAscii(s: string)
  {
    forall i :: 0 <= i < |s| ==> s[i] as int < 0x80
  }

  /** ASCII text is one byte per character, each the character's code. */
  lemma {:induction false} Utf8Ascii(s: string)
    requires IsAscii(s)
    ensures Utf8(s) == seq(|s|, i requires 0 <= i < |s| => s[i] as int)
  {
    if s != [] {
      assert IsAscii(s[1..]) by {
        forall i | 0 <= i < |s| - 1 ensures s[1..][i] as int < 0x80 {
          assert s[1..][i] == s[i + 1];
        }
      }
      Utf8Ascii(s[1..]);
      assert CharCodes(s)[1..] == CharCodes(s[1..]);
    }
  }

  lemma DigitsAscii(n: nat)
    ensures IsAscii(NatToString(n))
  {
  }

  // ---- literal strings (ISO 32000-1, section 7.3.4.2) ----

  predicate IsDelimiter(c: char)
  {
    c == '\\' || c == '(' || c == ')'
  }

  /** `escapePdfText`: three global replaces, backslashes first. */
  function EscapePdfText(text: string): (r: string)
    ensures (forall i :: 0 <= i < |text| ==> !IsDelimiter(text[i])) ==> r == text
  {
    ReplaceAllChar(ReplaceAllChar(ReplaceAllChar(text, '\\', "\\\\"), '(', "\\("), ')', "\\)")
  }

  /** What escaping does to one character: a delimiter gets a backslash in front. */
  function EscapeChar(c: char): (r: string)
    ensures IsDelimiter(c) ==> r == ['\\', c]
    ensures !IsDelimiter(c) ==> r == [c]
  {
    if IsDelimiter(c) then ['\\', c] else [c]
  }

  /** The reader's side: a backslash makes the next character literal. */
  function UnescapePdfText(s: string): string
  {
    if s == [] then []
    else if s[0] == '\\' && |s| >= 2 then [s[1]] + UnescapePdfText(s[2..])
    else [s[0]] + UnescapePdfText(s[1..])
  }

  /** The three passes escape each character on its own: the backslashes inserted by the later passes are
      never doubled, because backslashes are replaced first. */
  lemma {:induction false} EscapeCharwise(s: string)
    ensures s != [] ==> EscapePdfText(s) == EscapeChar(s[0]) + EscapePdfText(s[1..])
  {
    if s != [] {
      var c := s[0];
      var t := s[1..];
      assert s == [c] + t;
      ReplaceAllCharAppend([c], t, '\\', "\\\\");
      var a1 := ReplaceAllChar([c], '\\', "\\\\");
      var b1 := ReplaceAllChar(t, '\\', "\\\\");
      ReplaceAllCharAppend(a1, b1, '(', "\\(");
      var a2 := ReplaceAllChar(a1, '(', "\\(");
      var b2 := ReplaceAllChar(b1, '(', "\\(");
      ReplaceAllCharAppend(a2, b2, ')', "\\)");
      assert ReplaceAllChar(a2, ')', "\\)") == EscapeChar(c) by {
        if c == '\\' {
          assert a1 == "\\\\";
          assert ReplaceAllChar("\\\\", '(', "\\(") == "\\\\";
          assert ReplaceAllChar("\\\\", ')', "\\)") == "\\\\";
        } else if c == '(' {
          assert a1 == "(";
          assert a2 == "\\(";
          assert ReplaceAllChar("\\(", ')', "\\)") == "\\(";
        } else if c == ')' {
          assert a1 == ")";
          assert a2 == ")";
        } else {
          assert a1 == [c];
          assert a2 == [c];
        }
      }
    }
  }

  /** Reading the escaped text back gives the original text. */
  lemma {:induction false} EscapeRoundTrip(s: string)
    ensures UnescapePdfText(EscapePdfText(s)) == s
  {
    if s != [] {
      EscapeCharwise(s);
      EscapeRoundTrip(s[1..]);
      var e := EscapePdfText(s);
      var rest := EscapePdfText(s[1..]);
      if IsDelimiter(s[0]) {
        assert e == ['\\', s[0]] + rest;
        assert e[2..] == rest;
      } else {
        assert e == [s[0]] + rest;
        assert e[1..] == rest;
      }
    }
  }

  /** Escaping adds exactly one character per delimiter. */
  lemma {:induction false} EscapeLength(s: string)
    ensures |EscapePdfText(s)| == |s| + CountWhere(s, IsDelimiter)
  {
    if s != [] {
      EscapeCharwise(s);
      EscapeLength(s[1..]);
    }
  }

  /** Every parenthesis of `e` has a backslash right before it. */
  predicate Guarded(e: string)
  {
    forall i :: 0 <= i < |e| && e[i] in "()" ==> i >= 1 && e[i - 1] == '\\'
  }

  /** Putting one escaped character in front of guarded text keeps it guarded. */
  lemma GuardedCons(c: char, rest: string)
    requires Guarded(rest)
    ensures Guarded(EscapeChar(c) + rest)
  {
    var head := EscapeChar(c);
    var e := head + rest;
    forall i | 0 <= i < |e| && e[i] in "()"
      ensures i >= 1 && e[i - 1] == '\\'
    {
      if i >= |head| {
        assert e[i] == rest[i - |head|];
        if i - |head| >= 1 {
          assert e[i - 1] == rest[i - |head| - 1];
        }
      }
    }
  }

  /** The escaped text is guarded throughout. */
  lemma {:induction false} EscapeGuarded(s: string)
    ensures Guarded(EscapePdfText(s))
  {
    if s == [] {
      assert EscapePdfText(s) == [];
    } else {
      EscapeCharwise(s);
      EscapeGuarded(s[1..]);
      GuardedCons(s[0], EscapePdfText(s[1..]));
    }
  }

  /** A delimiter never appears in the escaped text without a backslash right before it. */
  lemma EscapedDelimitersGuarded(s: string, i: nat)
    requires i < |EscapePdfText(s)| && EscapePdfText(s)[i] in "()"
    ensures i >= 1 && EscapePdfText(s)[i - 1] == '\\'
  {
    EscapeGuarded(s);
  }

  // ---- the content stream ----

  datatype TextBlock = TextBlock(text: string, fontSize: int)

  /** The content-stream operators the emitter writes (ISO 32000-1, sections 9.3 and 9.4). */
  datatype Op =
    | BeginText                 // BT
    | SetFont(size: int)        // /F1 size Tf
    | MoveText(x: int, y: int)  // x y Td
    | ShowText(text: string)    // (escaped text) Tj
    | EndText                   // ET

  /** One operator as its line of the stream. */
  function OpLine(op: Op): string
  {
    match op
    case BeginText => "BT"
    case SetFont(size) => "/F1 " + IntToString(size) + " Tf"
    case MoveText(x, y) => IntToString(x) + " " + IntToString(y) + " Td"
    case ShowText(text) => "(" + EscapePdfText(text) + ") Tj"
    case EndText => "ET"
  }

  function Lines(ops: seq<Op>): (r: seq<string>)
    ensures |r| == |ops|
  {
    seq(|ops|, i requires 0 <= i < |ops| => OpLine(ops[i]))
  }

  lemma LinesAppend(a: seq<Op>, b: seq<Op>)
    ensures Lines(a + b) == Lines(a) + Lines(b)
  {
    forall i | 0 <= i < |a| + |b|
      ensures Lines(a + b)[i] == (Lines(a) + Lines(b))[i]
    {
      if i < |a| {
        assert (a + b)[i] == a[i];
      } else {
        assert (a + b)[i] == b[i - |a|];
      }
    }
  }

  /** One block: begin text, select the font at the block's size, move to (72, y), show the text, end. */
  function BlockOps(block: TextBlock, y: int): (r: seq<Op>)
    ensures |r| == 5
  {
    [BeginText, SetFont(block.fontSize), MoveText(72, y), ShowText(block.text), EndText]
  }

  /** How far the cursor has moved down after the given blocks: each block advances fontSize + 6. */
  function Advance(blocks: seq<TextBlock>): int
  {
    if blocks == [] then 0 else Advance(blocks[..|blocks| - 1]) + blocks[|blocks| - 1].fontSize + 6
  }

  /** The baseline of block i: 750 minus the advances of the blocks before it. */
  function BlockY(blocks: seq<TextBlock>, i: nat): int
    requires i <= |blocks|
  {
    750 - Advance(blocks[..i])
  }

  /** The operators of the whole stream: the blocks' groups in block order. */
  function ContentOps(blocks: seq<TextBlock>): (r: seq<Op>)
    ensures |r| == 5 * |blocks|
  {
    if blocks == [] then []
    else
      var n := |blocks| - 1;
      ContentOps(blocks[..n]) + BlockOps(blocks[n], BlockY(blocks, n))
  }

  /** The stream as bytes: the operator lines joined by newlines. */
  function ContentStream(blocks: seq<TextBlock>): (r: seq<Byte>)
    ensures blocks == [] ==> r == []
  {
    Utf8(Join(Lines(ContentOps(blocks)), "\n"))
  }

  /** Operators 5i..5i+4 are block i's group, placed at its own baseline. */
  lemma {:induction false} ContentOpsAt(blocks: seq<TextBlock>, i: nat)
    requires i < |blocks|
    ensures ContentOps(blocks)[5 * i .. 5 * i + 5] == BlockOps(blocks[i], BlockY(blocks, i))
  {
    var n := |blocks| - 1;
    var front := blocks[..n];
    var last := BlockOps(blocks[n], BlockY(blocks, n));
    assert ContentOps(blocks) == ContentOps(front) + last;
    if i < n {
      ContentOpsAt(front, i);
      assert front[i] == blocks[i];
      assert front[..i] == blocks[..i];
      assert BlockY(front, i) == BlockY(blocks, i);
      SliceLeft(ContentOps(front), last, 5 * i, 5 * i + 5);
    } else {
      SliceRight(ContentOps(front), last);
      assert ContentOps(blocks)[5 * i ..] == last;
    }
  }

  /** A five-operator window of `ops` that opens with BT, closes with ET and has neither in between. */
  lemma GroupInside(ops: seq<Op>, at: nat, g: seq<Op>)
    requires at + 5 <= |ops| && ops[at .. at + 5] == g
    requires g[0] == BeginText && g[4] == EndText
    requires forall j :: 0 < j < 4 ==> g[j] != BeginText && g[j] != EndText
    ensures ops[at] == BeginText && ops[at + 4] == EndText
    ensures forall k :: at < k < at + 4 ==> ops[k] != BeginText && ops[k] != EndText
  {
    assert forall k :: at <= k < at + 5 ==> ops[k] == g[k - at];
  }

  /** Every group starts with BT and ends with ET, so text objects never nest. */
  lemma TextObjectsBalanced(blocks: seq<TextBlock>, i: nat)
    requires i < |blocks|
    ensures ContentOps(blocks)[5 * i] == BeginText && ContentOps(blocks)[5 * i + 4] == EndText
    ensures forall k :: 5 * i < k < 5 * i + 4 ==> ContentOps(blocks)[k] != BeginText && ContentOps(blocks)[k] != EndText
  {
    ContentOpsAt(blocks, i);
    GroupInside(ContentOps(blocks), 5 * i, BlockOps(blocks[i], BlockY(blocks, i)));
  }

  /** The cursor only ever goes down and is never checked against the page bottom: with non-negative font
      sizes, block i sits at least 6i below the top, however many blocks there are. */
  lemma {:induction false} CursorNeverResets(blocks: seq<TextBlock>, i: nat)
    requires i <= |blocks|
    requires forall j :: 0 <= j < |blocks| ==> blocks[j].fontSize >= 0
    ensures BlockY(blocks, i) <= 750 - 6 * i
  {
    if i > 0 {
      CursorNeverResets(blocks, i - 1);
      assert blocks[..i][..i - 1] == blocks[..i - 1];
      assert Advance(blocks[..i]) == Advance(blocks[..i - 1]) + blocks[i - 1].fontSize + 6;
    }
  }

  /** The five lines of one block, as text. */
  lemma BlockLinesText(block: TextBlock, y: int)
    ensures Lines(BlockOps(block, y))
         == ["BT", "/F1 " + IntToString(block.fontSize) + " Tf", "72 " + IntToString(y) + " Td",
             "(" + EscapePdfText(block.text) + ") Tj", "ET"]
  {
    var ops := BlockOps(block, y);
    assert OpLine(ops[2]) == "72 " + IntToString(y) + " Td" by {
      assert NatToString(72) == NatToString(7) + [DigitChar(2)];
    }
    assert Lines(ops) == [OpLine(ops[0]), OpLine(ops[1]), OpLine(ops[2]), OpLine(ops[3]), OpLine(ops[4])];
  }

  /** One more block: its five lines follow the earlier ones, and the cursor drops by fontSize + 6. */
  lemma ContentStep(blocks: seq<TextBlock>, i: nat)
    requires i < |blocks|
    ensures var b := blocks[i];
            var y := BlockY(blocks, i);
            Lines(ContentOps(blocks[..i + 1]))
              == Lines(ContentOps(blocks[..i]))
                 + ["BT", "/F1 " + IntToString(b.fontSize) + " Tf", "72 " + IntToString(y) + " Td",
                    "(" + EscapePdfText(b.text) + ") Tj", "ET"]
    ensures BlockY(blocks, i + 1) == BlockY(blocks, i) - (blocks[i].fontSize + 6)
  {
    var done := blocks[..i + 1];
    assert done[..i] == blocks[..i] && done[i] == blocks[i];
    assert ContentOps(done) == ContentOps(blocks[..i]) + BlockOps(blocks[i], BlockY(blocks, i));
    LinesAppend(ContentOps(blocks[..i]), BlockOps(blocks[i], BlockY(blocks, i)));
    BlockLinesText(blocks[i], BlockY(blocks, i));
    assert Advance(done) == Advance(blocks[..i]) + blocks[i].fontSize + 6;
  }

  /** `buildContentStream`: pushes five lines per block while moving the cursor down. */
  method BuildContentStream(blocks: seq<TextBlock>) returns (content: seq<Byte>)
    ensures content == ContentStream(blocks)
  {
    var lines: seq<string> := [];
    var currentY := 750;
    for i := 0 to |blocks|
      invariant lines == Lines(ContentOps(blocks[..i]))
      invariant currentY == BlockY(blocks, i)
    {
      var block := blocks[i];
      ContentStep(blocks, i);
      lines := lines + ["BT", "/F1 " + IntToString(block.fontSize) + " Tf", "72 " + IntToString(currentY) + " Td",
                        "(" + EscapePdfText(block.text) + ") Tj", "ET"];
      currentY := currentY - (block.fontSize + 6);
    }
    assert blocks[..|blocks|] == blocks;
    content := Utf8(Join(lines, "\n"));
  }

  // ---- the file: header, five objects, cross-reference table, trailer ----

  const HeaderLine: string := "%PDF-1.4\n"

  /** The line that opens indirect object `num` (generation 0). */
  function ObjectHead(num: nat): string
  {
    NatToString(num) + " 0 obj\n"
  }

  /** An object whose body is a fixed dictionary. */
  function DictObject(num: nat, dict: string): string
  {
    ObjectHead(num) + dict + "\nendobj\n"
  }

  /** The fixed dictionaries: the catalog, the page tree with its one page, the US-Letter page that uses
      the content stream and font F1, and the standard Helvetica font. */
  const CatalogDict: string := "<< /Type /Catalog /Pages 2 0 R >>"
  const PagesDict: string := "<< /Type /Pages /Kids [3 0 R] /Count 1 >>"
  const PageDict: string :=
    "<< /Type /Page /Parent 2 0 R /MediaBox [0 0 612 792] /Contents 4 0 R /Resources << /Font << /F1 5 0 R >> >> >>"
  const FontDict: string := "<< /Type /Font /Subtype /Type1 /BaseFont /Helvetica >>"

  /** The start of the fourth object, up to the first byte of the stream data. */
  function StreamHead(length: nat): string
  {
    ObjectHead(4) + "<< /Length " + NatToString(length) + " >>\nstream\n"
  }

  const StreamTail: string := "\nendstream\nendobj\n"

  /** The fourth object: its dictionary gives the stream's byte length, then the stream data. */
  function StreamObject(content: seq<Byte>): seq<Byte>
  {
    Utf8(StreamHead(|content|)) + content + Utf8(StreamTail)
  }

  /** Objects 1 to 5: catalog, page tree, page, content stream, font. */
  function Objects(content: seq<Byte>): (objs: seq<seq<Byte>>)
    ensures |objs| == 5
  {
    [ Utf8(DictObject(1, CatalogDict)),
      Utf8(DictObject(2, PagesDict)),
      Utf8(DictObject(3, PageDict)),
      StreamObject(content),
      Utf8(DictObject(5, FontDict)) ]
  }

  /** Byte position of object k (0-based): after the header and the objects before it. */
  function ObjectOffset(objs: seq<seq<Byte>>, k: nat): nat
    requires k <= |objs|
  {
    |Utf8(HeaderLine)| + |Concat(objs[..k])|
  }

  function Offsets(objs: seq<seq<Byte>>): (r: seq<nat>)
    ensures |r| == |objs|
  {
    seq(|objs|, k requires 0 <= k < |objs| => ObjectOffset(objs, k))
  }

  /** One in-use entry: 10-digit offset, generation 00000, `n`, and the two-character end of line. */
  function XrefEntry(offset: nat): string
  {
    PadStart(NatToString(offset), 10, '0') + " 00000 n \n"
  }

  function XrefEntries(offsets: seq<nat>): (r: seq<string>)
    ensures |r| == |offsets|
  {
    seq(|offsets|, k requires 0 <= k < |offsets| => XrefEntry(offsets[k]))
  }

  const FreeEntry: string := "0000000000 65535 f \n"

  /** The cross-reference section: the subsection header, the free head of the list, one entry per object. */
  function XrefSection(offsets: seq<nat>): string
  {
    "xref\n" + "0 " + NatToString(|offsets| + 1) + "\n" + FreeEntry + Concat(XrefEntries(offsets))
  }

  function Trailer(size: nat, xrefOffset: nat): string
  {
    "trailer\n<< /Root 1 0 R /Size " + NatToString(size) + " >>\nstartxref\n" + NatToString(xrefOffset) + "\n"
    + "%%EOF\n"
  }

  /** Where the cross-reference section starts: right after the last object. */
  function StartXref(objs: seq<seq<Byte>>): nat
  {
    ObjectOffset(objs, |objs|)
  }

  /** The buffers concatenated into the file: header, objects, cross-reference section, trailer. */
  function Buffers(objs: seq<seq<Byte>>): seq<seq<Byte>>
  {
    [Utf8(HeaderLine)] + objs + [Utf8(XrefSection(Offsets(objs)))] + [Utf8(Trailer(|objs| + 1, StartXref(objs)))]
  }

  /** The file around a given content stream. */
  function FileAround(content: seq<Byte>): seq<Byte>
  {
    Concat(Buffers(Objects(content)))
  }

  /** The whole file produced for the given blocks. */
  function PdfFile(blocks: seq<TextBlock>): (r: seq<Byte>)
    ensures |Utf8(HeaderLine)| <= |r| && r[..|Utf8(HeaderLine)|] == Utf8(HeaderLine)
  {
    StartsWithHeader(Objects(ContentStream(blocks)));
    FileAround(ContentStream(blocks))
  }

  /** `createSimplePdf`: the content stream, the five objects around it, then the file layout. */
  method CreateSimplePdf(blocks: seq<TextBlock>) returns (pdf: seq<Byte>)
    ensures pdf == PdfFile(blocks)
  {
    var contentStream := BuildContentStream(blocks);
    var objects := WriteObjects(contentStream);
    pdf := LayOut(objects);
  }

  /** The five `objects.push` calls of `createSimplePdf`; the fourth concatenates its head, the stream data
      and its tail. */
  method WriteObjects(contentStream: seq<Byte>) returns (objects: seq<seq<Byte>>)
    ensures objects == Objects(contentStream)
  {
    objects := [];
    objects := objects + [Utf8(DictObject(1, CatalogDict))];
    objects := objects + [Utf8(DictObject(2, PagesDict))];
    objects := objects + [Utf8(DictObject(3, PageDict))];
    objects := objects + [Utf8(StreamHead(|contentStream|)) + contentStream + Utf8(StreamTail)];
    objects := objects + [Utf8(DictObject(5, FontDict))];
    PushFive(Utf8(DictObject(1, CatalogDict)), Utf8(DictObject(2, PagesDict)), Utf8(DictObject(3, PageDict)),
             StreamObject(contentStream), Utf8(DictObject(5, FontDict)));
  }

  lemma PushFive<T>(a: T, b: T, c: T, d: T, e: T)
    ensures [] + [a] + [b] + [c] + [d] + [e] == [a, b, c, d, e]
  {
  }

  /** The second half of `createSimplePdf`: records each object's offset while summing the lengths, then
      appends the cross-reference section and the trailer to the header and the objects. */
  method LayOut(objects: seq<seq<Byte>>) returns (pdf: seq<Byte>)
    ensures pdf == Concat(Buffers(objects))
  {
    var header := Utf8(HeaderLine);
    var buffers: seq<seq<Byte>> := [header];
    var offsets: seq<nat> := [];
    var offset := |header|;
    for i := 0 to |objects|
      invariant buffers == [header] + objects[..i]
      invariant offsets == Offsets(objects)[..i]
      invariant offset == ObjectOffset(objects, i)
    {
      OffsetStep(objects, i);
      AppendAssoc([header], objects[..i], [objects[i]]);
      offsets := offsets + [offset];
      buffers := buffers + [objects[i]];
      offset := offset + |objects[i]|;
    }
    assert objects[..|objects|] == objects;
    assert offsets == Offsets(objects);

    var xrefOffset := offset;
    var xref := BuildXref(offsets);
    buffers := buffers + [Utf8(xref)];
    buffers := buffers + [Utf8(Trailer(|objects| + 1, xrefOffset))];
    pdf := Concat(buffers);
  }

  /** The cross-reference section text of `createSimplePdf`, one entry appended per recorded offset. */
  method BuildXref(offsets: seq<nat>) returns (xref: string)
    ensures xref == XrefSection(offsets)
  {
    xref := "xref\n" + "0 " + NatToString(|offsets| + 1) + "\n";
    xref := xref + FreeEntry;
    ghost var head := xref;
    for i := 0 to |offsets|
      invariant xref == head + Concat(XrefEntries(offsets)[..i])
    {
      XrefStep(offsets, i);
      var entry := PadStart(NatToString(offsets[i]), 10, '0') + " 00000 n \n";
      AppendAssoc(head, Concat(XrefEntries(offsets)[..i]), entry);
      xref := xref + entry;
    }
    assert XrefEntries(offsets)[..|offsets|] == XrefEntries(offsets);
  }

  lemma OffsetStep(objects: seq<seq<Byte>>, i: nat)
    requires i < |objects|
    ensures Offsets(objects)[..i + 1] == Offsets(objects)[..i] + [ObjectOffset(objects, i)]
    ensures ObjectOffset(objects, i + 1) == ObjectOffset(objects, i) + |objects[i]|
    ensures objects[..i + 1] == objects[..i] + [objects[i]]
  {
    assert objects[..i + 1] == objects[..i] + [objects[i]];
    ConcatAppend(objects[..i], [objects[i]]);
  }

  lemma XrefStep(offsets: seq<nat>, i: nat)
    requires i < |offsets|
    ensures Concat(XrefEntries(offsets)[..i + 1])
         == Concat(XrefEntries(offsets)[..i]) + (PadStart(NatToString(offsets[i]), 10, '0') + " 00000 n \n")
  {
    var e := XrefEntries(offsets);
    assert e[..i + 1] == e[..i] + [e[i]];
    ConcatAppend(e[..i], [e[i]]);
  }

  // ---- what a reader relies on ----

  lemma HeaderLength()
    ensures |Utf8(HeaderLine)| == 9
  {
    Utf8Ascii(HeaderLine);
  }

  /** The file starts with the `%PDF-1.4` header line, whatever the objects are. */
  lemma StartsWithHeader(objs: seq<seq<Byte>>)
    ensures var h := Utf8(HeaderLine);
            |h| <= |Concat(Buffers(objs))| && Concat(Buffers(objs))[..|h|] == h
  {
    var b := Buffers(objs);
    assert Concat(b) == b[0] + Concat(b[1..]);
  }

  /** Encoding a string that starts with `head` gives bytes that start with the encoding of `head`. */
  lemma Utf8Prefix(s: string, head: string)
    requires |head| <= |s| && s[..|head|] == head
    ensures |Utf8(head)| <= |Utf8(s)| && Utf8(s)[..|Utf8(head)|] == Utf8(head)
  {
    assert s == head + s[|head|..];
    Utf8Append(head, s[|head|..]);
  }

  /** An object built from a dictionary starts with its head line. */
  lemma DictObjectHead(num: nat, dict: string)
    ensures var h := ObjectHead(num);
            |h| <= |DictObject(num, dict)| && DictObject(num, dict)[..|h|] == h
  {
    var h := ObjectHead(num);
    PrefixAppend(h, dict, h);
    PrefixAppend(h + dict, "\nendobj\n", h);
  }

  /** The stream object begins with its `4 0 obj` line. */
  lemma StreamObjectStartsWithHead(content: seq<Byte>)
    ensures var head := Utf8(ObjectHead(4));
            |head| <= |StreamObject(content)| && StreamObject(content)[..|head|] == head
  {
    var h := ObjectHead(4);
    var sh := StreamHead(|content|);
    PrefixAppend(h, "<< /Length ", h);
    PrefixAppend(h + "<< /Length ", NatToString(|content|), h);
    PrefixAppend(h + "<< /Length " + NatToString(|content|), " >>\nstream\n", h);
    Utf8Prefix(sh, h);
    PrefixAppend(Utf8(sh), content + Utf8(StreamTail), Utf8(h));
    AppendAssoc(Utf8(sh), content, Utf8(StreamTail));
  }

  /** Object k (0-based) begins with its `k+1 0 obj` line. */
  lemma ObjectStartsWithHead(content: seq<Byte>, k: nat)
    requires k < 5
    ensures var head := Utf8(ObjectHead(k + 1));
            |head| <= |Objects(content)[k]| && Objects(content)[k][..|head|] == head
  {
    var objs := Objects(content);
    if k == 3 {
      assert objs[k] == StreamObject(content);
      StreamObjectStartsWithHead(content);
    } else {
      var dict := if k == 0 then CatalogDict else if k == 1 then PagesDict else if k == 2 then PageDict else FontDict;
      assert objs[k] == Utf8(DictObject(k + 1, dict));
      DictBytesStartWithHead(k + 1, dict);
    }
  }

  /** The bytes of a dictionary object begin with the bytes of its head line. */
  lemma DictBytesStartWithHead(num: nat, dict: string)
    ensures var head := Utf8(ObjectHead(num));
            |head| <= |Utf8(DictObject(num, dict))| && Utf8(DictObject(num, dict))[..|head|] == head
  {
    DictObjectHead(num, dict);
    Utf8Prefix(DictObject(num, dict), ObjectHead(num));
  }

  /** In the laid-out file, object k starts at its offset. */
  lemma ObjectInFile(objs: seq<seq<Byte>>, k: nat)
    requires k < |objs|
    ensures var at := ObjectOffset(objs, k);
            at + |objs[k]| <= |Concat(Buffers(objs))| && Concat(Buffers(objs))[at .. at + |objs[k]|] == objs[k]
  {
    var h, x := Utf8(HeaderLine), Utf8(XrefSection(Offsets(objs)));
    var t := Utf8(Trailer(|objs| + 1, StartXref(objs)));
    assert Buffers(objs) == [h] + objs + [x] + [t];
    assert ObjectOffset(objs, k) == |h| + |Concat(objs[..k])|;
    ObjectPartAt(h, objs, x, t, k);
  }

  /** In `[h] + objs + [x] + [t]` concatenated, object k sits after `h` and the objects before it. */
  lemma ObjectPartAt(h: seq<Byte>, objs: seq<seq<Byte>>, x: seq<Byte>, t: seq<Byte>, k: nat)
    requires k < |objs|
    ensures var at := |h| + |Concat(objs[..k])|;
            var all := Concat([h] + objs + [x] + [t]);
            at + |objs[k]| <= |all| && all[at .. at + |objs[k]|] == objs[k]
  {
    var b := [h] + objs + [x] + [t];
    assert b[..k + 1] == [h] + objs[..k];
    ConcatAppend([h], objs[..k]);
    assert b[k + 1] == objs[k];
    ConcatSlice(b, k + 1);
  }

  /** Whatever object k starts with is found at its offset in the laid-out file. */
  lemma PrefixAtOffset(objs: seq<seq<Byte>>, k: nat, head: seq<Byte>)
    requires k < |objs| && |head| <= |objs[k]| && objs[k][..|head|] == head
    ensures var at := Offsets(objs)[k];
            at + |head| <= |Concat(Buffers(objs))| && Concat(Buffers(objs))[at .. at + |head|] == head
  {
    ObjectInFile(objs, k);
    SlicePrefix(Concat(Buffers(objs)), ObjectOffset(objs, k), objs[k], head);
  }

  /** The k-th recorded offset is the position of the first byte of `k+1 0 obj`, which is what the
      cross-reference table promises a reader. */
  lemma ObjectAtOffset(content: seq<Byte>, k: nat)
    requires k < 5
    ensures var objs := Objects(content);
            var at := Offsets(objs)[k];
            var head := Utf8(ObjectHead(k + 1));
            at + |head| <= |FileAround(content)| && FileAround(content)[at .. at + |head|] == head
  {
    ObjectStartsWithHead(content, k);
    PrefixAtOffset(Objects(content), k, Utf8(ObjectHead(k + 1)));
  }

  /** `/Length` states the exact number of bytes between `stream` and `endstream`: the digits after
      `/Length ` read back as L, and the L bytes after the `stream` line are the content stream, followed by
      the `endstream` line. */
  lemma StreamLengthExact(content: seq<Byte>)
    ensures var digits := NatToString(|content|);
            var obj := Objects(content)[3];
            var start := |Utf8(StreamHead(|content|))|;
            var len := ParseDigits(digits);
            start + len <= |obj| && obj[start .. start + len] == content
            && obj[start + len ..] == Utf8("\nendstream\nendobj\n")
  {
    ParseNatToString(|content|);
  }

  /** The cross-reference section opens with the `xref` keyword line. */
  lemma XrefKeyword(offsets: seq<nat>)
    ensures var x := XrefSection(offsets);
            |x| >= 5 && x == "xref\n" + x[5..]
  {
    var p := "xref\n";
    var n := NatToString(|offsets| + 1);
    PrefixAppend(p, "0 ", p);
    PrefixAppend(p + "0 ", n, p);
    PrefixAppend(p + "0 " + n, "\n", p);
    PrefixAppend(p + "0 " + n + "\n", FreeEntry, p);
    PrefixAppend(p + "0 " + n + "\n" + FreeEntry, Concat(XrefEntries(offsets)), p);
    SplitAt(XrefSection(offsets), 5);
  }

  /** In `[h] + objs + [x] + [t]` concatenated, `x` sits right after `h` and the objects. */
  lemma ThirdPartAt(h: seq<Byte>, objs: seq<seq<Byte>>, x: seq<Byte>, t: seq<Byte>)
    ensures var at := |h| + |Concat(objs)|;
            var all := Concat([h] + objs + [x] + [t]);
            at + |x| <= |all| && all[at .. at + |x|] == x
  {
    var b := [h] + objs + [x] + [t];
    var n := |objs|;
    assert b[n + 1] == x;
    assert b[..n + 1] == [h] + objs;
    ConcatAppend([h], objs);
    ConcatSlice(b, n + 1);
  }

  /** In the laid-out file, the cross-reference section starts right after the last object. */
  lemma XrefInFile(objs: seq<seq<Byte>>)
    ensures var at := StartXref(objs);
            var x := Utf8(XrefSection(Offsets(objs)));
            at + |x| <= |Concat(Buffers(objs))| && Concat(Buffers(objs))[at .. at + |x|] == x
  {
    var h, x := Utf8(HeaderLine), Utf8(XrefSection(Offsets(objs)));
    var t := Utf8(Trailer(|objs| + 1, StartXref(objs)));
    assert Buffers(objs) == [h] + objs + [x] + [t];
    assert objs[..|objs|] == objs;
    assert StartXref(objs) == |h| + |Concat(objs)|;
    ThirdPartAt(h, objs, x, t);
  }

  /** `startxref` gives the position of the `xref` keyword, whatever the objects are. */
  lemma StartXrefPointsAtXref(objs: seq<seq<Byte>>)
    ensures var at := StartXref(objs);
            var file := Concat(Buffers(objs));
            var kw := Utf8("xref\n");
            at + |kw| <= |file| && file[at .. at + |kw|] == kw
  {
    var x := XrefSection(Offsets(objs));
    XrefInFile(objs);
    XrefKeyword(Offsets(objs));
    Utf8Append("xref\n", x[5..]);
    PrefixAppend(Utf8("xref\n"), Utf8(x[5..]), Utf8("xref\n"));
    SlicePrefix(Concat(Buffers(objs)), StartXref(objs), Utf8(x), Utf8("xref\n"));
  }

  /** The laid-out file ends with the trailer. */
  lemma TrailerLast(objs: seq<seq<Byte>>)
    ensures var t := Utf8(Trailer(|objs| + 1, StartXref(objs)));
            var f := Concat(Buffers(objs));
            |t| <= |f| && f[|f| - |t|..] == t
  {
    var front := [Utf8(HeaderLine)] + objs + [Utf8(XrefSection(Offsets(objs)))];
    var t := Utf8(Trailer(|objs| + 1, StartXref(objs)));
    assert Buffers(objs) == front + [t];
    LastPartAt(front, t);
  }

  /** The concatenation of `front + [t]` ends with `t`. */
  lemma LastPartAt(front: seq<seq<Byte>>, t: seq<Byte>)
    ensures var all := Concat(front + [t]);
            |t| <= |all| && all[|all| - |t|..] == t
  {
    var b := front + [t];
    var n := |b| - 1;
    ConcatAround(b, n);
    assert b[..n] == front && b[n + 1..] == [];
    SliceRight(Concat(front), t);
  }

  /** The trailer ends with the `%%EOF` marker line. */
  lemma TrailerEndsWithEof(size: nat, xrefOffset: nat)
    ensures var t := Utf8(Trailer(size, xrefOffset));
            var eof := Utf8("%%EOF\n");
            |eof| <= |t| && t[|t| - |eof|..] == eof
  {
    var y := "trailer\n<< /Root 1 0 R /Size " + NatToString(size) + " >>\nstartxref\n" + NatToString(xrefOffset) + "\n";
    Utf8Append(y, "%%EOF\n");
    SliceRight(Utf8(y), Utf8("%%EOF\n"));
  }

  /** The file ends with the `%%EOF` marker line, whatever the objects are. */
  lemma EndsWithEof(objs: seq<seq<Byte>>)
    ensures var file := Concat(Buffers(objs));
            var eof := Utf8("%%EOF\n");
            |eof| <= |file| && file[|file| - |eof|..] == eof
  {
    var b := Buffers(objs);
    var n := |b| - 1;
    assert b[n] == Utf8(Trailer(|objs| + 1, StartXref(objs)));
    assert b == b[..n] + [b[n]];
    TrailedEndsWithEof(b[..n], |objs| + 1, StartXref(objs));
  }

  /** Any parts followed by the trailer end with the `%%EOF` marker line. */
  lemma TrailedEndsWithEof(front: seq<seq<Byte>>, size: nat, xrefOffset: nat)
    ensures var file := Concat(front + [Utf8(Trailer(size, xrefOffset))]);
            var eof := Utf8("%%EOF\n");
            |eof| <= |file| && file[|file| - |eof|..] == eof
  {
    var t := Utf8(Trailer(size, xrefOffset));
    LastPartAt(front, t);
    TrailerEndsWithEof(size, xrefOffset);
    SuffixOfSuffix(Concat(front + [t]), t, Utf8("%%EOF\n"));
  }

  /** Every in-use entry is 20 bytes and its first ten digits read back as the offset, as long as the
      offset has at most ten digits. */
  lemma XrefEntryWidth(offset: nat)
    requires offset < Pow10(10)
    ensures |XrefEntry(offset)| == 20
    ensures var digits := XrefEntry(offset)[..10];
            (forall i :: 0 <= i < 10 ==> IsDigit(digits[i])) && ParseDigits(digits) == offset
  {
    NatToStringWidth(offset, 10);
    var s := NatToString(offset);
    var p := PadStart(s, 10, '0');
    assert XrefEntry(offset)[..10] == p;
    ParseNatToString(offset);
    ZeroPadParse(s, 10 - |s|);
    assert p == Zeros(10 - |s|) + s;
  }

  function Zeros(z: nat): (r: string)
    ensures |r| == z
  {
    seq(z, _ => '0')
  }

  /** Leading zeros do not change the value of a digit string. */
  lemma {:induction false} ZeroPadParse(s: string, z: nat)
    requires forall i :: 0 <= i < |s| ==> IsDigit(s[i])
    ensures forall i :: 0 <= i < z + |s| ==> IsDigit((Zeros(z) + s)[i])
    ensures ParseDigits(Zeros(z) + s) == ParseDigits(s)
  {
    var p := Zeros(z) + s;
    if s == [] {
      assert p == Zeros(z);
      ZerosParse(z);
    } else {
      var n := |s| - 1;
      assert p[..|p| - 1] == Zeros(z) + s[..n];
      ZeroPadParse(s[..n], z);
    }
  }

  lemma {:induction false} ZerosParse(z: nat)
    ensures ParseDigits(Zeros(z)) == 0
  {
    if z > 0 {
      assert Zeros(z)[..z - 1] == Zeros(z - 1);
      ZerosParse(z - 1);
    }
  }

  /** Entry k of the table sits 20k bytes after the free entry, so a reader can index it directly. */
  lemma {:induction false} EntriesAt(entries: seq<string>, k: nat)
    requires k < |entries|
    requires forall j :: 0 <= j < |entries| ==> |entries[j]| == 20
    ensures 20 * k + 20 <= |Concat(entries)|
    ensures Concat(entries)[20 * k .. 20 * k + 20] == entries[k]
  {
    assert Concat(entries) == entries[0] + Concat(entries[1..]);
    if k > 0 {
      EntriesAt(entries[1..], k - 1);
    }
  }
}
