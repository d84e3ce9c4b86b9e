/** The layout that the PDF writer of the example generator promises: escaped text, a content
    stream with its length, numbered objects, a cross-reference table and a trailer.

    A byte string is modelled as a string of characters below 256, which is what encoding to
    latin-1 leaves unchanged. */
module PdfLayout {
  import opened Decimal

  predicate Latin1(s: string) { forall i | 0 <= i < |s| :: s[i] as int < 256 }

  /** One pass over a line: a backslash before each backslash and parenthesis. */
  function Escape(line: string): string {
    if line == "" then ""
    else (if line[0] in {'\\', '(', ')'} then ['\\', line[0]] else [line[0]]) + Escape(line[1..])
  }

  /** The show operators for `lines`, each behind a line feed. */
  function Shows(lines: seq<string>): string {
    if lines == [] then ""
    else "\n(" + (Escape(lines[0]) + (") Tj" + ((if |lines| > 1 then "\n0 -15 Td" else "") + Shows(lines[1..]))))
  }

  const BeginText := "BT\n/F1 12 Tf\n50 750 Td"
  const EndText := "\nET"

  function Content(lines: seq<string>): string {
    BeginText + (Shows(lines) + EndText)
  }

  function StreamObject(content: string): string {
    "<< /Length " + (Dec(|content|) + (" >>\nstream\n" + (content + "\nendstream")))
  }

  const Catalog := "<< /Type /Catalog /Pages 2 0 R >>"
  const PageTree := "<< /Type /Pages /Kids [3 0 R] /Count 1 >>"
  const PageHead := "<< /Type /Page /Parent 2 0 R"
  const MediaBox := " /MediaBox [0 0 612 792] "
  const Resources := "/Resources << /Font << /F1 5 0 R >> >> >>"
  const Page := PageHead + MediaBox + ("/Contents 4 0 R " + Resources)
  const Font := "<< /Type /Font " + "/Subtype /Type1 /BaseFont /Helvetica >>"

  function Objects(lines: seq<string>): seq<string> {
    [Catalog, PageTree, Page, StreamObject(Content(lines)), Font]
  }

  const Header := "%PDF-1.4\n"

  function ObjectText(number: nat, obj: string): string {
    Dec(number) + (" 0 obj\n" + (obj + "\nendobj\n"))
  }

  /** The objects in order, the first one numbered `number`. */
  function Body(objects: seq<string>, number: nat): string {
    if objects == [] then "" else ObjectText(number, objects[0]) + Body(objects[1..], number + 1)
  }

  /** Where each object begins when the first one begins at `position`. */
  function Offsets(objects: seq<string>, number: nat, position: nat): seq<nat> {
    if objects == [] then []
    else [position] + Offsets(objects[1..], number + 1, position + |ObjectText(number, objects[0])|)
  }

  function Entry(offset: nat): string { Pad10(offset) + " 00000 n \n" }

  function Entries(offsets: seq<nat>): string {
    if offsets == [] then "" else Entry(offsets[0]) + Entries(offsets[1..])
  }

  const FreeEntry := "0000000000 65535 f \n"

  function Xref(offsets: seq<nat>): string {
    "xref\n0 " + (Dec(|offsets| + 1) + ("\n" + (FreeEntry + Entries(offsets))))
  }

  function Trailer(size: nat, xrefOffset: nat): string {
    "trailer\n<< /Size " + (Dec(size) + (" /Root 1 0 R >>\nstartxref\n" + (Dec(xrefOffset) + "\n%%EOF")))
  }

  function ObjectOffsets(objects: seq<string>): seq<nat> { Offsets(objects, 1, |Header|) }

  function XrefOffset(objects: seq<string>): nat { |Header + Body(objects, 1)| }

  function File(objects: seq<string>): string {
    Header + Body(objects, 1) + (Xref(ObjectOffsets(objects)) + Trailer(|objects| + 1, XrefOffset(objects)))
  }

  lemma {:induction false} OffsetsLength(objects: seq<string>, number: nat, position: nat)
    ensures |Offsets(objects, number, position)| == |objects|
    decreases |objects|
  {
    if objects != [] { OffsetsLength(objects[1..], number + 1, position + |ObjectText(number, objects[0])|); }
  }
}

/** The writer, statement by statement. */
module PdfWriter {
  import opened Text
  import opened Decimal
  import opened PdfLayout

  /** `str.replace` of one character by a string. */
  function Replace(s: string, c: char, r: string): string {
    if s == "" then "" else (if s[0] == c then r else [s[0]]) + Replace(s[1..], c, r)
  }

  lemma {:induction false} ReplaceConcat(a: string, b: string, c: char, r: string)
    ensures Replace(a + b, c, r) == Replace(a, c, r) + Replace(b, c, r)
  {
    if a == "" {
      assert a + b == b;
    } else {
      assert (a + b)[1..] == a[1..] + b;
      ReplaceConcat(a[1..], b, c, r);
    }
  }

  /** The three replacements together escape each character once. The backslash comes first, so that
      none of the backslashes that the other two put in is escaped again. */
  lemma {:induction false} ThreeReplacesEscapeOnce(line: string)
    ensures Replace(Replace(Replace(line, '\\', "\\\\"), '(', "\\("), ')', "\\)") == Escape(line)
  {
    if line != "" {
      ThreeReplacesEscapeOnce(line[1..]);
      var c := if line[0] == '\\' then "\\\\" else [line[0]];
      ReplaceConcat(c, Replace(line[1..], '\\', "\\\\"), '(', "\\(");
      ReplaceConcat(Replace(c, '(', "\\("), Replace(Replace(line[1..], '\\', "\\\\"), '(', "\\("), ')', "\\)");
      EscapeOne(line[0]);
    }
  }

  lemma EscapeOne(x: char)
    ensures var c := if x == '\\' then "\\\\" else [x];
            Replace(Replace(c, '(', "\\("), ')', "\\)") == if x in {'\\', '(', ')'} then ['\\', x] else [x]
  {
    ReplaceSmall(x, '(', "\\(");
    ReplaceSmall(x, ')', "\\)");
  }

  lemma ReplaceSmall(x: char, c: char, r: string)
    ensures Replace([x], c, r) == if x == c then r else [x]
    ensures Replace(['\\', x], c, r) == (if c == '\\' then r else "\\") + (if x == c then r else [x])
  {
    assert [x][1..] == "" && ['\\', x][1..] == [x];
  }

  /** `"\n".join(parts)`. */
  function JoinLines(parts: seq<string>): string {
    if parts == [] then ""
    else if |parts| == 1 then parts[0]
    else JoinLines(parts[..|parts| - 1]) + ("\n" + parts[|parts| - 1])
  }

  lemma JoinMore(parts: seq<string>, x: string)
    requires parts != []
    ensures JoinLines(parts + [x]) == JoinLines(parts) + ("\n" + x)
  {
    assert (parts + [x])[..|parts|] == parts;
  }

  lemma ShowOne(done: string, lines: seq<string>, i: nat)
    requires i < |lines|
    ensures var shown := done + ("\n" + ("(" + Escape(lines[i]) + ") Tj"));
            done + Shows(lines[i..])
            == (if i < |lines| - 1 then shown + ("\n" + "0 -15 Td") else shown) + Shows(lines[i + 1..])
  {
    var rest, esc := Shows(lines[i + 1..]), Escape(lines[i]);
    var move := if i < |lines| - 1 then "\n0 -15 Td" else "";
    assert lines[i..][1..] == lines[i + 1..];
    assert "\n" + "0 -15 Td" == "\n0 -15 Td";
    Regroup(done, esc, move, rest);
  }

  lemma Regroup(done: string, esc: string, move: string, rest: string)
    ensures done + ("\n(" + (esc + (") Tj" + (move + rest)))) == done + ("\n" + ("(" + esc + ") Tj")) + move + rest
  {
  }

  /** The parts that line `i` adds. */
  function LineParts(lines: seq<string>, i: nat): seq<string>
    requires i < |lines|
  {
    ["(" + Escape(lines[i]) + ") Tj"] + (if i < |lines| - 1 then ["0 -15 Td"] else [])
  }

  lemma AddLine(parts: seq<string>, lines: seq<string>, i: nat)
    requires parts != [] && i < |lines|
    ensures JoinLines(parts + LineParts(lines, i)) + Shows(lines[i + 1..]) == JoinLines(parts) + Shows(lines[i..])
  {
    var show := "(" + Escape(lines[i]) + ") Tj";
    ShowOne(JoinLines(parts), lines, i);
    JoinMore(parts, show);
    if i < |lines| - 1 {
      JoinMore(parts + [show], "0 -15 Td");
      assert parts + LineParts(lines, i) == parts + [show] + ["0 -15 Td"];
    } else {
      assert parts + LineParts(lines, i) == parts + [show];
    }
  }

  lemma StartParts()
    ensures JoinLines(["BT", "/F1 12 Tf", "50 750 Td"]) == BeginText
  {
    JoinMore(["BT"], "/F1 12 Tf");
    JoinMore(["BT", "/F1 12 Tf"], "50 750 Td");
    assert ["BT"] + ["/F1 12 Tf"] == ["BT", "/F1 12 Tf"];
    assert ["BT", "/F1 12 Tf"] + ["50 750 Td"] == ["BT", "/F1 12 Tf", "50 750 Td"];
  }

  lemma EndParts(parts: seq<string>, lines: seq<string>)
    requires parts != [] && JoinLines(parts) + Shows([]) == BeginText + Shows(lines)
    ensures JoinLines(parts + ["ET"]) == Content(lines)
  {
    JoinMore(parts, "ET");
    assert "\n" + "ET" == EndText;
    assert JoinLines(parts) + "" == JoinLines(parts);
    Assoc(BeginText, Shows(lines), EndText);
  }

  method ContentStream(lines: seq<string>) returns (content: string)
    ensures content == Content(lines)
  {
    var parts := ["BT", "/F1 12 Tf", "50 750 Td"];
    StartParts();
    assert lines[0..] == lines;
    hide Shows, Escape, JoinLines, LineParts, Content;
    for idx := 0 to |lines|
      invariant parts != []
      invariant JoinLines(parts) + Shows(lines[idx..]) == BeginText + Shows(lines)
    {
      AddLine(parts, lines, idx);
      parts := AppendLine(parts, lines, idx);
    }
    EndParts(parts, lines);
    parts := parts + ["ET"];
    content := JoinLines(parts);
  }

  /** The loop body of the content-stream loop. */
  method AppendLine(contentParts: seq<string>, lines: seq<string>, idx: nat) returns (parts: seq<string>)
    requires idx < |lines|
    ensures parts == contentParts + LineParts(lines, idx)
  {
    var line := lines[idx];
    var escaped := Replace(Replace(Replace(line, '\\', "\\\\"), '(', "\\("), ')', "\\)");
    ThreeReplacesEscapeOnce(line);
    parts := contentParts + ["(" + escaped + ") Tj"];
    if idx < |lines| - 1 {
      parts := parts + ["0 -15 Td"];
    }
  }

  lemma {:induction false} BodyMore(objects: seq<string>, number: nat, obj: string)
    ensures Body(objects + [obj], number) == Body(objects, number) + ObjectText(number + |objects|, obj)
    decreases |objects|
  {
    if objects == [] {
      assert objects + [obj] == [obj] && [obj][1..] == [];
      assert Body([obj], number) == ObjectText(number, obj) + "";
      assert "" + ObjectText(number, obj) == ObjectText(number, obj);
    } else {
      assert (objects + [obj])[1..] == objects[1..] + [obj];
      BodyMore(objects[1..], number + 1, obj);
      Assoc(ObjectText(number, objects[0]), Body(objects[1..], number + 1), ObjectText(number + |objects|, obj));
    }
  }

  lemma LayoutCons(first: string, rest: seq<string>, number: nat, position: nat)
    ensures Body([first] + rest, number) == ObjectText(number, first) + Body(rest, number + 1)
    ensures Offsets([first] + rest, number, position)
            == [position] + Offsets(rest, number + 1, position + |ObjectText(number, first)|)
  {
    assert ([first] + rest)[1..] == rest;
  }

  lemma {:induction false} OffsetsMore(objects: seq<string>, number: nat, position: nat, obj: string)
    ensures Offsets(objects + [obj], number, position)
            == Offsets(objects, number, position) + [position + |Body(objects, number)|]
    decreases |objects|
  {
    if objects == [] {
      assert objects + [obj] == [obj] + [];
      LayoutCons(obj, [], number, position);
    } else {
      hide ObjectText, Body, Offsets;
      var first, rest := objects[0], objects[1..];
      var next := position + |ObjectText(number, first)|;
      assert objects == [first] + rest && objects + [obj] == [first] + (rest + [obj]);
      LayoutCons(first, rest, number, position);
      LayoutCons(first, rest + [obj], number, position);
      OffsetsMore(rest, number + 1, next, obj);
      Assoc([position], Offsets(rest, number + 1, next), [next + |Body(rest, number + 1)|]);
    }
  }

  lemma {:induction false} EntriesMore(offsets: seq<nat>, offset: nat)
    ensures Entries(offsets + [offset]) == Entries(offsets) + Entry(offset)
  {
    if offsets == [] {
      assert offsets + [offset] == [offset] && [offset][1..] == [];
      assert Entry(offset) + "" == Entry(offset) && "" + Entry(offset) == Entry(offset);
    } else {
      assert (offsets + [offset])[1..] == offsets[1..] + [offset];
      EntriesMore(offsets[1..], offset);
      Assoc(Entry(offsets[0]), Entries(offsets[1..]), Entry(offset));
    }
  }

  /** The body loop: objects appended one by one, each offset taken before its object. */
  method AssembleBody(objects: seq<string>) returns (pdf: string, offsets: seq<nat>)
    ensures pdf == Header + Body(objects, 1) && offsets == ObjectOffsets(objects)
  {
    pdf := "%PDF-1.4\n";
    offsets := [];
    assert Header + "" == Header && objects[..0] == [];
    for i := 0 to |objects|
      invariant pdf == Header + Body(objects[..i], 1)
      invariant offsets == Offsets(objects[..i], 1, |Header|)
    {
      hide Body, Offsets;
      ghost var start := pdf;
      assert objects[..i + 1] == objects[..i] + [objects[i]];
      BodyMore(objects[..i], 1, objects[i]);
      OffsetsMore(objects[..i], 1, |Header|, objects[i]);
      offsets := offsets + [|pdf|];
      pdf := pdf + (Dec(i + 1) + " 0 obj\n");
      pdf := pdf + objects[i];
      pdf := pdf + "\nendobj\n";
      Appended(start, Dec(i + 1), objects[i]);
      Assoc(Header, Body(objects[..i], 1), ObjectText(i + 1, objects[i]));
    }
    assert objects[..|objects|] == objects;
  }

  lemma Appended(pdf: string, number: string, obj: string)
    ensures pdf + (number + " 0 obj\n") + obj + "\nendobj\n" == pdf + (number + (" 0 obj\n" + (obj + "\nendobj\n")))
  {
  }

  /** The cross-reference table, entry by entry. */
  method AppendXref(body: string, offsets: seq<nat>) returns (pdf: string)
    ensures pdf == body + Xref(offsets)
  {
    pdf := body + ("xref\n0 " + Dec(|offsets| + 1) + "\n");
    pdf := pdf + "0000000000 65535 f \n";
    ghost var start := pdf;
    assert start + "" == start && offsets[..0] == [];
    for k := 0 to |offsets|
      invariant pdf == start + Entries(offsets[..k])
    {
      assert offsets[..k + 1] == offsets[..k] + [offsets[k]];
      EntriesMore(offsets[..k], offsets[k]);
      Assoc(start, Entries(offsets[..k]), Entry(offsets[k]));
      pdf := pdf + (Pad10(offsets[k]) + " 00000 n \n");
    }
    assert offsets[..|offsets|] == offsets;
    XrefGroups(body, Dec(|offsets| + 1), Entries(offsets));
  }

  lemma XrefGroups(body: string, size: string, entries: string)
    ensures body + ("xref\n0 " + size + "\n") + FreeEntry + entries
            == body + ("xref\n0 " + (size + ("\n" + (FreeEntry + entries))))
  {
  }

  lemma TrailerGroups(pdf: string, size: string, offset: string)
    ensures pdf + "trailer\n" + ("<< /Size " + size + " /Root 1 0 R >>\n") + "startxref\n" + (offset + "\n") + "%%EOF"
         == pdf + ("trailer\n<< /Size " + (size + (" /Root 1 0 R >>\nstartxref\n" + (offset + "\n%%EOF"))))
  {
    assert "trailer\n" + "<< /Size " == "trailer\n<< /Size ";
    assert " /Root 1 0 R >>\n" + "startxref\n" == " /Root 1 0 R >>\nstartxref\n";
    assert "\n" + "%%EOF" == "\n%%EOF";
  }

  /** `_generate_minimal_pdf`: the laid-out file, or nothing when the text is not latin-1. */
  method GenerateMinimalPdf(lines: seq<string>) returns (pdf: Option<string>)
    ensures pdf == if Latin1(Content(lines)) then Some(File(Objects(lines))) else None
  {
    var content := ContentStream(lines);
    if !Latin1(content) {
      return None;
    }
    var stream := "<< /Length " + Dec(|content|) + " >>\nstream\n" + content + "\nendstream";
    var objects := [Catalog, PageTree, Page, stream, Font];
    StreamGroups(Dec(|content|), content);
    assert objects == Objects(lines);
    var body, offsets := AssembleBody(objects);
    var xrefOffset := |body|;
    var numObjs := |objects| + 1;
    OffsetsLength(objects, 1, |Header|);
    var out := AppendXref(body, offsets);
    ghost var tabled := out;
    out := out + "trailer\n";
    out := out + ("<< /Size " + Dec(numObjs) + " /Root 1 0 R >>\n");
    out := out + "startxref\n";
    out := out + (Dec(xrefOffset) + "\n");
    out := out + "%%EOF";
    TrailerGroups(tabled, Dec(numObjs), Dec(xrefOffset));
    Assoc(body, Xref(offsets), Trailer(numObjs, xrefOffset));
    pdf := Some(out);
  }

  lemma StreamGroups(length: string, content: string)
    ensures "<< /Length " + length + " >>\nstream\n" + content + "\nendstream"
         == "<< /Length " + (length + (" >>\nstream\n" + (content + "\nendstream")))
  {
  }
}
