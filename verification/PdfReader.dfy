/** An independent reader of the part of ISO 32000-1 that the writer uses: `startxref` found from
    the end of the file, the cross-reference table with its 20-byte entries (sections 7.5.4 and
    7.5.5), catalog, page tree and page (7.7), a stream read by its /Length (7.3.8.2) and literal
    strings (7.3.4.2). */
module PdfReader {
  import opened Text
  import opened Decimal
  import opened PdfLayout

  predicate StartsWith(s: string, t: string) { |t| <= |s| && s[..|t|] == t }

  predicate EndsWith(s: string, t: string) { |t| <= |s| && s[|s| - |t|..] == t }

  /** What follows `t` at the start of `s`. */
  function Expect(s: string, t: string): Option<string> {
    if StartsWith(s, t) then Some(s[|t|..]) else None
  }

  datatype Numeral = Numeral(value: nat, rest: string)

  function ReadNumeral(s: string): Option<Numeral> {
    var n := DigitRun(s);
    if n == 0 then None
    else
      DigitRunDigits(s);
      Some(Numeral(Val(s[..n]), s[n..]))
  }

  /** The byte offset written between "startxref" and "%%EOF" at the end of the file. */
  function ReadStartXref(pdf: string): Option<nat> {
    if !EndsWith(pdf, "\n%%EOF") then None
    else
      var s := pdf[..|pdf| - 6];
      var n := DigitTail(s);
      if n == 0 || !EndsWith(s[..|s| - n], "startxref\n") then None
      else
        DigitTailDigits(s);
        Some(Val(s[|s| - n..]))
  }

  /** One entry in use: ten digits, a space, a five-digit generation and " n" with its two-byte end
      of line, twenty bytes in all. */
  function ReadEntry(s: string): Option<nat> {
    if |s| >= 20 && AllDigits(s[..10]) && s[10] == ' ' && AllDigits(s[11..16]) && s[16..20] == " n \n"
    then Some(Val(s[..10])) else None
  }

  function ReadEntries(s: string, n: nat): Option<seq<nat>> {
    if n == 0 then Some([])
    else
      match ReadEntry(s)
      case None => None
      case Some(offset) =>
        match ReadEntries(s[20..], n - 1)
        case None => None
        case Some(offsets) => Some([offset] + offsets)
  }

  /** The offsets of objects 1 and up, from a table that starts at the beginning of `s`. */
  function ReadXref(s: string): Option<seq<nat>> {
    match Expect(s, "xref\n0 ")
    case None => None
    case Some(s1) =>
      match ReadNumeral(s1)
      case None => None
      case Some(size) =>
        match Expect(size.rest, "\n0000000000 65535 f \n")
        case None => None
        case Some(s2) => if size.value == 0 then None else ReadEntries(s2, size.value - 1)
  }

  /** What follows the header of object `number` at the start of `s`. */
  function ReadObject(s: string, number: nat): Option<string> {
    match ReadNumeral(s)
    case None => None
    case Some(n) => if n.value == number then Expect(n.rest, " 0 obj\n") else None
  }

  function ReadStream(s: string): Option<string> {
    match Expect(s, "<< /Length ")
    case None => None
    case Some(s1) =>
      match ReadNumeral(s1)
      case None => None
      case Some(length) =>
        match Expect(length.rest, " >>\nstream\n")
        case None => None
        case Some(s2) =>
          if length.value <= |s2| && StartsWith(s2[length.value..], "\nendstream")
          then Some(s2[..length.value])
          else None
  }

  datatype Literal = Literal(text: string, rest: string)

  function Prefixed(c: string, l: Option<Literal>): Option<Literal> {
    if l.Some? then Some(Literal(c + l.value.text, l.value.rest)) else None
  }

  predicate Octal(c: char) { '0' <= c <= '7' }

  function OctalRun(s: string, max: nat): (n: nat)
    ensures n <= max && n <= |s|
  {
    if max == 0 || s == "" || !Octal(s[0]) then 0 else 1 + OctalRun(s[1..], max - 1)
  }

  function OctalDigit(c: char): (d: nat)
    ensures d < 8
  {
    if Octal(c) then (c - '0') as nat else 0
  }

  function OctalVal(s: string): nat {
    if s == "" then 0 else 8 * OctalVal(s[..|s| - 1]) + OctalDigit(s[|s| - 1])
  }

  /** A literal string behind its opening parenthesis, with `depth` nested parentheses open: escape
      sequences of table 3, balanced parentheses, and any end of line read as a line feed. */
  function ReadLiteral(s: string, depth: nat): Option<Literal>
    decreases |s|
  {
    if s == "" then None
    else if s[0] == '\\' then
      if |s| == 1 then None
      else if s[1] == 'n' then Prefixed("\n", ReadLiteral(s[2..], depth))
      else if s[1] == 'r' then Prefixed("\r", ReadLiteral(s[2..], depth))
      else if s[1] == 't' then Prefixed("\t", ReadLiteral(s[2..], depth))
      else if s[1] == 'b' then Prefixed(['\U{8}'], ReadLiteral(s[2..], depth))
      else if s[1] == 'f' then Prefixed(['\U{C}'], ReadLiteral(s[2..], depth))
      else if Octal(s[1]) then
        var n := OctalRun(s[1..], 3);
        Prefixed([(OctalVal(s[1..][..n]) % 256) as char], ReadLiteral(s[1 + n..], depth))
      else if s[1] == '\r' then ReadLiteral(s[if |s| > 2 && s[2] == '\n' then 3 else 2..], depth)
      else if s[1] == '\n' then ReadLiteral(s[2..], depth)
      else Prefixed([s[1]], ReadLiteral(s[2..], depth))
    else if s[0] == '(' then Prefixed("(", ReadLiteral(s[1..], depth + 1))
    else if s[0] == ')' then
      if depth == 0 then Some(Literal("", s[1..])) else Prefixed(")", ReadLiteral(s[1..], depth - 1))
    else if s[0] == '\r' then Prefixed("\n", ReadLiteral(s[if |s| > 1 && s[1] == '\n' then 2 else 1..], depth))
    else Prefixed([s[0]], ReadLiteral(s[1..], depth))
  }

  lemma {:induction false} LiteralShrinks(s: string, depth: nat)
    ensures ReadLiteral(s, depth).Some? ==> |ReadLiteral(s, depth).value.rest| < |s|
    decreases |s|
  {
    if s != "" {
      if s[0] == '\\' {
        if |s| > 1 {
          if s[1] in {'n', 'r', 't', 'b', 'f'} { LiteralShrinks(s[2..], depth); }
          else if Octal(s[1]) { LiteralShrinks(s[1 + OctalRun(s[1..], 3)..], depth); }
          else if s[1] == '\r' { LiteralShrinks(s[if |s| > 2 && s[2] == '\n' then 3 else 2..], depth); }
          else { LiteralShrinks(s[2..], depth); }
        }
      }
      else if s[0] == '(' { LiteralShrinks(s[1..], depth + 1); }
      else if s[0] == ')' { if depth > 0 { LiteralShrinks(s[1..], depth - 1); } }
      else if s[0] == '\r' { LiteralShrinks(s[if |s| > 1 && s[1] == '\n' then 2 else 1..], depth); }
      else { LiteralShrinks(s[1..], depth); }
    }
  }

  /** The strings shown by the operators up to the end of the text object, each a line below the one
      before. */
  function ReadShows(s: string): Option<seq<string>>
    decreases |s|
  {
    if s == "\nET" then Some([])
    else if !StartsWith(s, "\n(") then None
    else
      LiteralShrinks(s[2..], 0);
      match ReadLiteral(s[2..], 0)
      case None => None
      case Some(lit) =>
        match Expect(lit.rest, " Tj")
        case None => None
        case Some(s1) =>
          if s1 == "\nET" then Some([lit.text])
          else
            match Expect(s1, "\n0 -15 Td")
            case None => None
            case Some(s2) =>
              match ReadShows(s2)
              case None => None
              case Some(lines) => if lines == [] then None else Some([lit.text] + lines)
  }

  function ReadContent(s: string): Option<seq<string>> {
    match Expect(s, BeginText)
    case None => None
    case Some(s1) => ReadShows(s1)
  }

  // ---- From the trailer to the page ----

  /** The object that a dictionary refers to behind `key`: "/Key n 0 R". */
  function ReadRef(dict: string, key: string): Option<nat> {
    var k := Find(dict, key);
    if k < 0 then None
    else
      match ReadNumeral(dict[k + |key|..])
      case None => None
      case Some(n) => if StartsWith(n.rest, " 0 R") then Some(n.value) else None
  }

  /** What follows the header of an object, found by its offset in the table. */
  function ObjectAt(pdf: string, offsets: seq<nat>, number: nat): Option<string> {
    if number == 0 || number > |offsets| || offsets[number - 1] > |pdf| then None
    else ReadObject(pdf[offsets[number - 1]..], number)
  }

  function DictAt(pdf: string, offsets: seq<nat>, number: nat): Option<string> {
    match ObjectAt(pdf, offsets, number)
    case None => None
    case Some(s) =>
      var k := Find(s, "\nendobj\n");
      if k < 0 then None else Some(s[..k])
  }

  /** The object that object `number` refers to behind `key`. */
  function Follow(pdf: string, offsets: seq<nat>, number: Option<nat>, key: string): Option<nat> {
    if number.None? then None
    else
      match DictAt(pdf, offsets, number.value)
      case None => None
      case Some(dict) => ReadRef(dict, key)
  }

  /** The size that the trailer behind a cross-reference table states. */
  function ReadSize(s: string): Option<nat> {
    var k := Find(s, "trailer\n");
    if k < 0 then None
    else
      match Expect(s[k..], "trailer\n<< /Size ")
      case None => None
      case Some(s1) =>
        match ReadNumeral(s1)
        case None => None
        case Some(n) => Some(n.value)
  }

  /** The catalog that the trailer behind a cross-reference table names. */
  function ReadRoot(s: string): Option<nat> {
    var k := Find(s, "trailer\n");
    if k < 0 then None else ReadRef(s[k..], "/Root ")
  }

  /** The first page: /Root, /Pages, the first of /Kids. */
  function ReadPage(pdf: string, offsets: seq<nat>, root: Option<nat>): Option<nat> {
    Follow(pdf, offsets, Follow(pdf, offsets, root, "/Pages "), "/Kids [")
  }

  /** The page's resources name the font that the content uses, and that object is a font. */
  predicate HasFont(pdf: string, offsets: seq<nat>, page: Option<nat>) {
    match Follow(pdf, offsets, page, "/Resources << /Font << /F1 ")
    case None => false
    case Some(font) =>
      match DictAt(pdf, offsets, font)
      case None => false
      case Some(dict) => StartsWith(dict, "<< /Type /Font ")
  }

  /** From the end of the file to the text of the page: startxref, table, trailer, catalog, page tree,
      page, and the stream that the page names as its contents. The file starts with its version, and
      the trailer states the size of the table. */
  function ReadPdf(pdf: string): Option<seq<string>> {
    match ReadStartXref(pdf)
    case None => None
    case Some(start) =>
      if !StartsWith(pdf, "%PDF-1.4\n") || start > |pdf| then None
      else
        match ReadXref(pdf[start..])
        case None => None
        case Some(offsets) =>
          if ReadSize(pdf[start..]) != Some(|offsets| + 1) then None
          else ReadText(pdf, offsets, ReadPage(pdf, offsets, ReadRoot(pdf[start..])))
  }

  function ReadText(pdf: string, offsets: seq<nat>, page: Option<nat>): Option<seq<string>> {
    if !HasFont(pdf, offsets, page) then None
    else
      match Follow(pdf, offsets, page, "/Contents ")
      case None => None
      case Some(contents) =>
        match ObjectAt(pdf, offsets, contents)
        case None => None
        case Some(obj) =>
          match ReadStream(obj)
          case None => None
          case Some(content) => ReadContent(content)
  }

  // ---- Strings ----

  /** Every end of line as a line feed: what a literal string can carry of a raw carriage return. */
  function Normal(line: string): string
    decreases |line|
  {
    if line == "" then ""
    else if line[0] == '\r' then "\n" + Normal(line[if |line| > 1 && line[1] == '\n' then 2 else 1..])
    else [line[0]] + Normal(line[1..])
  }

  lemma LiteralEscaped(c: char, s: string)
    requires c in {'\\', '(', ')'}
    ensures ReadLiteral(['\\', c] + s, 0) == Prefixed([c], ReadLiteral(s, 0))
  {
    assert (['\\', c] + s)[2..] == s;
  }

  lemma LiteralPlain(c: char, s: string)
    requires c !in {'\\', '(', ')', '\r'}
    ensures ReadLiteral([c] + s, 0) == Prefixed([c], ReadLiteral(s, 0))
  {
    assert ([c] + s)[1..] == s;
  }

  lemma LiteralReturn(s: string)
    ensures ReadLiteral("\r" + s, 0) == Prefixed("\n", ReadLiteral(if s != "" && s[0] == '\n' then s[1..] else s, 0))
  {
    assert ("\r" + s)[1..] == s && (s != "" ==> ("\r" + s)[2..] == s[1..]);
  }

  /** Reading an escaped line stops at the parenthesis that closes it and gives the line back, up to
      its ends of line. */
  lemma {:induction false} EscapeReads(line: string, rest: string)
    ensures ReadLiteral(Escape(line) + (")" + rest), 0) == Some(Literal(Normal(line), rest))
    decreases |line|
  {
    var end := ")" + rest;
    if line == "" {
      assert "" + end == end && end[1..] == rest;
    } else {
      hide ReadLiteral;
      var c, more := line[0], Escape(line[1..]) + end;
      Assoc(if c in {'\\', '(', ')'} then ['\\', c] else [c], Escape(line[1..]), end);
      if c in {'\\', '(', ')'} {
        LiteralEscaped(c, more);
        EscapeReads(line[1..], rest);
      } else if c != '\r' {
        LiteralPlain(c, more);
        EscapeReads(line[1..], rest);
      } else {
        LiteralReturn(more);
        NextOfEscape(line[1..], rest);
        EscapeReads(line[if |line| > 1 && line[1] == '\n' then 2 else 1..], rest);
      }
    }
  }

  lemma NextOfEscape(line: string, rest: string)
    ensures var s := Escape(line) + (")" + rest);
            && s != ""
            && (s[0] == '\n' <==> line != "" && line[0] == '\n')
            && (s[0] == '\n' ==> s[1..] == Escape(line[1..]) + (")" + rest))
  {
    if line != "" && line[0] == '\n' {
      assert "\n" + Escape(line[1..]) + (")" + rest) == "\n" + (Escape(line[1..]) + (")" + rest));
    }
  }

  lemma {:induction false} NormalKeeps(line: string)
    ensures Normal(line) == line <==> '\r' !in line
    ensures '\r' !in Normal(line)
    decreases |line|
  {
    if line != "" {
      if line[0] == '\r' {
        NormalKeeps(line[if |line| > 1 && line[1] == '\n' then 2 else 1..]);
      } else {
        NormalKeeps(line[1..]);
        assert line == [line[0]] + line[1..];
      }
    }
  }

  // ---- The writer's pieces read back ----

  lemma ExpectHere(t: string, rest: string)
    ensures Expect(t + rest, t) == Some(rest)
  {
    assert (t + rest)[..|t|] == t && (t + rest)[|t|..] == rest;
  }

  lemma NumeralHere(n: nat, rest: string)
    requires rest == "" || !IsDigit(rest[0])
    ensures ReadNumeral(Dec(n) + rest) == Some(Numeral(n, rest))
  {
    DecReads(n);
    DigitRunOf(Dec(n), rest);
    assert (Dec(n) + rest)[..|Dec(n)|] == Dec(n) && (Dec(n) + rest)[|Dec(n)|..] == rest;
  }

  /** The offset behind "startxref" is found from the end of any file that ends as the writer's do. */
  lemma StartXrefHere(head: string, n: nat)
    ensures ReadStartXref(head + ("startxref\n" + (Dec(n) + "\n%%EOF"))) == Some(n)
  {
    StartXrefParts(head, Dec(n));
    DecReads(n);
    DigitTailOf(head + "startxref\n", Dec(n));
    hide Dec, Val, DigitTail, AllDigits;
  }

  lemma StartXrefParts(head: string, d: string)
    ensures var pdf := head + ("startxref\n" + (d + "\n%%EOF")); var s := head + "startxref\n" + d;
            && EndsWith(pdf, "\n%%EOF") && pdf[..|pdf| - 6] == s
            && s[..|s| - |d|] == head + "startxref\n" && s[|s| - |d|..] == d
            && EndsWith(head + "startxref\n", "startxref\n")
  {
    var s := head + "startxref\n" + d;
    assert head + ("startxref\n" + (d + "\n%%EOF")) == s + "\n%%EOF";
  }

  /** An entry is twenty bytes, and is read as one, exactly when its offset is below 10 ** 10. */
  lemma EntryIsTwentyBytes(offset: nat, rest: string)
    ensures |Entry(offset)| == 20 <==> offset < Pow10(10)
    ensures offset < Pow10(10) ==>
              ReadEntry(Entry(offset) + rest) == Some(offset) && (Entry(offset) + rest)[20..] == rest
    ensures offset >= Pow10(10) ==> ReadEntry(Entry(offset) + rest) == None
  {
    Pad10Reads(offset);
    var p, s := Pad10(offset), Entry(offset) + rest;
    if offset < Pow10(10) {
      EntryParts(p, s, rest);
    } else {
      assert s[10] == p[10];
    }
  }

  lemma EntryParts(p: string, s: string, rest: string)
    requires |p| == 10 && s == p + " 00000 n \n" + rest
    ensures |s| >= 20 && s[..10] == p && s[10] == ' ' && s[16..20] == " n \n" && s[20..] == rest && AllDigits(s[11..16])
  {
    var tail := " 00000 n \n";
    assert s == p + (tail + rest);
    assert forall i | 10 <= i < 20 :: s[i] == tail[i - 10];
    assert s[16..20] == tail[6..];
  }

  lemma {:induction false} EntriesHere(offsets: seq<nat>, rest: string)
    requires forall i | 0 <= i < |offsets| :: offsets[i] < Pow10(10)
    ensures ReadEntries(Entries(offsets) + rest, |offsets|) == Some(offsets)
  {
    if offsets != [] {
      hide Pow10, Entry, ReadEntry;
      var more := Entries(offsets[1..]) + rest;
      Assoc(Entry(offsets[0]), Entries(offsets[1..]), rest);
      EntryIsTwentyBytes(offsets[0], more);
      EntriesHere(offsets[1..], rest);
      assert offsets == [offsets[0]] + offsets[1..];
    }
  }

  lemma {:induction false} EntriesOverflow(offsets: seq<nat>, rest: string, i: nat)
    requires i < |offsets| && offsets[i] >= Pow10(10)
    requires forall j | 0 <= j < i :: offsets[j] < Pow10(10)
    ensures ReadEntries(Entries(offsets) + rest, |offsets|) == None
  {
    hide Pow10, Entry, ReadEntry;
    var more := Entries(offsets[1..]) + rest;
    Assoc(Entry(offsets[0]), Entries(offsets[1..]), rest);
    EntryIsTwentyBytes(offsets[0], more);
    if i > 0 { EntriesOverflow(offsets[1..], rest, i - 1); }
  }

  ghost predicate Fit(offsets: seq<nat>) { forall i | 0 <= i < |offsets| :: offsets[i] < Pow10(10) }

  lemma EntriesReadIffFit(offsets: seq<nat>, rest: string)
    ensures ReadEntries(Entries(offsets) + rest, |offsets|) == if Fit(offsets) then Some(offsets) else None
  {
    hide Pow10, ReadEntries, Entries;
    if Fit(offsets) {
      EntriesHere(offsets, rest);
    } else {
      EntriesOverflow(offsets, rest, FirstOverflow(offsets, 0));
    }
  }

  /** The whole table reads back exactly when every offset fits its ten digits. */
  lemma XrefHere(offsets: seq<nat>, rest: string)
    ensures ReadXref(Xref(offsets) + rest) == if Fit(offsets) then Some(offsets) else None
  {
    EntriesReadIffFit(offsets, rest);
    XrefParts(Dec(|offsets| + 1), Entries(offsets), rest);
    TableHere(|offsets| + 1, Entries(offsets) + rest);
    hide ReadXref, ReadEntries, Entries, Fit, Dec;
  }

  lemma TableHere(n: nat, s: string)
    requires n > 0
    ensures ReadXref("xref\n0 " + (Dec(n) + ("\n0000000000 65535 f \n" + s))) == ReadEntries(s, n - 1)
  {
    hide ReadEntries, Expect, ReadNumeral;
    var free := "\n0000000000 65535 f \n";
    ExpectHere("xref\n0 ", Dec(n) + (free + s));
    NumeralHere(n, free + s);
    ExpectHere(free, s);
  }

  lemma XrefParts(size: string, entries: string, rest: string)
    ensures "xref\n0 " + (size + ("\n" + (FreeEntry + entries))) + rest
         == "xref\n0 " + (size + ("\n0000000000 65535 f \n" + (entries + rest)))
  {
    assert "\n" + FreeEntry == "\n0000000000 65535 f \n";
  }

  function FirstOverflow(offsets: seq<nat>, from: nat): (i: nat)
    requires exists i: nat | from <= i < |offsets| :: offsets[i] >= Pow10(10)
    ensures from <= i < |offsets| && offsets[i] >= Pow10(10)
    ensures forall j | from <= j < i :: offsets[j] < Pow10(10)
    decreases |offsets| - from
  {
    if offsets[from] >= Pow10(10) then from else FirstOverflow(offsets, from + 1)
  }

  /** Each offset in the table is where "k 0 obj" and the k-th object begin. */
  lemma {:induction false} OffsetsPointAtObjects(
      objects: seq<string>, number: nat, before: string, after: string, k: nat)
    requires k < |objects|
    ensures |Offsets(objects, number, |before|)| == |objects|
    ensures var file := before + (Body(objects, number) + after); var off := Offsets(objects, number, |before|)[k];
            off <= |file| && StartsWith(file[off..], ObjectText(number + k, objects[k]))
    decreases |objects|
  {
    var first, rest := ObjectText(number, objects[0]), Body(objects[1..], number + 1);
    OffsetsLength(objects, number, |before|);
    hide ObjectText;
    ObjectParts(before, first, rest, after);
    if k > 0 {
      OffsetsPointAtObjects(objects[1..], number + 1, before + first, after, k - 1);
    }
  }

  lemma ObjectParts(before: string, first: string, rest: string, after: string)
    ensures var file := before + ((first + rest) + after);
            file == (before + first) + (rest + after) && StartsWith(file[|before|..], first)
  {
    var file := before + ((first + rest) + after);
    assert file[|before|..] == first + (rest + after);
  }

  lemma ObjectHere(number: nat, obj: string, s: string)
    requires StartsWith(s, ObjectText(number, obj))
    ensures ReadObject(s, number).Some? && StartsWith(ReadObject(s, number).value, obj + "\nendobj\n")
  {
    var rest, body := s[|ObjectText(number, obj)|..], obj + "\nendobj\n";
    assert s == Dec(number) + (" 0 obj\n" + (body + rest));
    NumeralHere(number, " 0 obj\n" + (body + rest));
    ExpectHere(" 0 obj\n", body + rest);
    ExpectHere(body, rest);
  }

  /** /Length is the stream's byte length: cutting that many bytes leaves "endstream". */
  lemma StreamHere(content: string, rest: string)
    ensures ReadStream(StreamObject(content) + rest) == Some(content)
  {
    var tail := "\nendstream" + rest;
    StreamParts(Dec(|content|), content, rest);
    ExpectHere("<< /Length ", Dec(|content|) + (" >>\nstream\n" + (content + tail)));
    NumeralHere(|content|, " >>\nstream\n" + (content + tail));
    ExpectHere(" >>\nstream\n", content + tail);
    ExpectHere(content, tail);
    ExpectHere("\nendstream", rest);
  }

  lemma StreamParts(length: string, content: string, rest: string)
    ensures "<< /Length " + (length + (" >>\nstream\n" + (content + "\nendstream"))) + rest
         == "<< /Length " + (length + (" >>\nstream\n" + (content + ("\nendstream" + rest))))
  {
  }

  function NormalLines(lines: seq<string>): seq<string> {
    if lines == [] then [] else [Normal(lines[0])] + NormalLines(lines[1..])
  }

  /** One show operator, at the end of the text object or before the move to the next line. */
  lemma ShowHere(line: string, move: string, next: string)
    requires (move == "" && next == EndText) || move == "\n0 -15 Td"
    ensures var s := "\n(" + (Escape(line) + (")" + (" Tj" + (move + next))));
            ReadShows(s) == if move == "" then Some([Normal(line)])
                            else match ReadShows(next)
                              case None => None
                              case Some(lines) => if lines == [] then None else Some([Normal(line)] + lines)
  {
    var s := "\n(" + (Escape(line) + (")" + (" Tj" + (move + next))));
    ExpectHere("\n(", Escape(line) + (")" + (" Tj" + (move + next))));
    EscapeReads(line, " Tj" + (move + next));
    ExpectHere(" Tj", move + next);
    assert |s| > 3 && s[1] == '(';
    hide ReadLiteral, Escape, Normal;
    if move == "" {
      assert move + next == next;
    } else {
      ExpectHere(move, next);
      assert (move + next)[1] == '0';
    }
  }

  lemma {:induction false} ShowsHere(lines: seq<string>)
    ensures ReadShows(Shows(lines) + EndText) == Some(NormalLines(lines))
  {
    if lines == [] {
      assert "" + EndText == EndText;
    } else {
      var move := if |lines| > 1 then "\n0 -15 Td" else "";
      var next := Shows(lines[1..]) + EndText;
      ShowParts(Escape(lines[0]), move, Shows(lines[1..]));
      assert Shows(lines) + EndText == "\n(" + (Escape(lines[0]) + (")" + (" Tj" + (move + next))));
      LastShow(lines);
      hide Escape, Normal, ReadShows, Shows;
      ShowHere(lines[0], move, next);
      ShowsHere(lines[1..]);
    }
  }

  lemma LastShow(lines: seq<string>)
    requires lines != []
    ensures |lines| == 1 ==> Shows(lines[1..]) + EndText == EndText && NormalLines(lines) == [Normal(lines[0])]
    ensures |lines| > 1 ==> NormalLines(lines[1..]) != []
  {
    hide Normal;
    if |lines| == 1 {
      assert lines[1..] == [] && "" + EndText == EndText;
      assert [Normal(lines[0])] + [] == [Normal(lines[0])];
    }
  }

  lemma ShowParts(esc: string, move: string, rest: string)
    ensures "\n(" + (esc + (") Tj" + (move + rest))) + EndText
            == "\n(" + (esc + (")" + (" Tj" + (move + (rest + EndText)))))
  {
    assert ") Tj" == ")" + " Tj";
  }

  lemma ContentHere(lines: seq<string>)
    ensures ReadContent(Content(lines)) == Some(NormalLines(lines))
  {
    ExpectHere(BeginText, Shows(lines) + EndText);
    ShowsHere(lines);
  }

  // ---- Writer and reader agree ----

  lemma OffsetAt(objects: seq<string>, number: nat, position: nat, i: nat)
    requires i < |objects|
    ensures |Offsets(objects, number, position)| == |objects|
    ensures i == 0 ==> Offsets(objects, number, position)[i] == position
    ensures i > 0 ==>
              && |Offsets(objects[1..], number + 1, position + |ObjectText(number, objects[0])|)| == |objects| - 1
              && Offsets(objects, number, position)[i]
                == Offsets(objects[1..], number + 1, position + |ObjectText(number, objects[0])|)[i - 1]
    ensures |Body(objects, number)| == |ObjectText(number, objects[0])| + |Body(objects[1..], number + 1)|
  {
    OffsetsLength(objects, number, position);
    OffsetsLength(objects[1..], number + 1, position + |ObjectText(number, objects[0])|);
    hide ObjectText;
  }

  lemma {:induction false} OffsetsGrow(objects: seq<string>, number: nat, position: nat, i: nat, j: nat)
    requires i <= j < |objects|
    ensures |Offsets(objects, number, position)| == |objects|
    ensures position <= Offsets(objects, number, position)[i]
            <= Offsets(objects, number, position)[j] <= position + |Body(objects, number)|
    decreases |objects|
  {
    hide *;
    OffsetAt(objects, number, position, i);
    OffsetAt(objects, number, position, j);
    if j > 0 {
      var first := position + |ObjectText(number, objects[0])|;
      OffsetsGrow(objects[1..], number + 1, first, if i > 0 then i - 1 else 0, j - 1);
    }
  }

  /** For any list of objects the reader finds "xref" where startxref points, gets every offset
      back, and finds "k 0 obj" and the k-th object at the k-th offset. */
  lemma FileReads(objects: seq<string>)
    ensures var file := File(objects); var offsets := ObjectOffsets(objects);
            && ReadStartXref(file) == Some(XrefOffset(objects)) && XrefOffset(objects) <= |file|
            && StartsWith(file[XrefOffset(objects)..], "xref\n")
            && ReadXref(file[XrefOffset(objects)..]) == (if Fit(offsets) then Some(offsets) else None)
            && |offsets| == |objects|
            && forall k | 0 <= k < |objects| ::
                 offsets[k] <= |file| && StartsWith(file[offsets[k]..], ObjectText(k + 1, objects[k]))
  {
    TableFound(objects);
    OffsetCount(objects);
    hide *;
    forall k | 0 <= k < |objects|
      ensures ObjectOffsets(objects)[k] <= |File(objects)|
              && StartsWith(File(objects)[ObjectOffsets(objects)[k]..], ObjectText(k + 1, objects[k]))
    {
      ObjectFound(objects, k);
    }
  }

  lemma OffsetCount(objects: seq<string>)
    ensures |ObjectOffsets(objects)| == |objects|
  {
    OffsetsLength(objects, 1, |Header|);
  }

  lemma FileParts(objects: seq<string>)
    ensures File(objects)
            == Header
               + (Body(objects, 1) + (Xref(ObjectOffsets(objects)) + Trailer(|objects| + 1, XrefOffset(objects))))
    ensures ObjectOffsets(objects) == Offsets(objects, 1, |Header|)
  {
    Assoc(Header, Body(objects, 1), Xref(ObjectOffsets(objects)) + Trailer(|objects| + 1, XrefOffset(objects)));
    hide Body, Xref, Trailer, Offsets;
  }

  lemma ObjectFound(objects: seq<string>, k: nat)
    requires k < |objects|
    ensures |ObjectOffsets(objects)| == |objects|
    ensures ObjectOffsets(objects)[k] <= |File(objects)|
            && StartsWith(File(objects)[ObjectOffsets(objects)[k]..], ObjectText(k + 1, objects[k]))
  {
    hide *;
    FileParts(objects);
    var after := Xref(ObjectOffsets(objects)) + Trailer(|objects| + 1, XrefOffset(objects));
    OffsetsPointAtObjects(objects, 1, Header, after, k);
  }

  lemma TableFound(objects: seq<string>)
    ensures var file := File(objects); var start := XrefOffset(objects); var offsets := ObjectOffsets(objects);
            && ReadStartXref(file) == Some(start) && start <= |file|
            && StartsWith(file[start..], "xref\n")
            && ReadXref(file[start..]) == if Fit(offsets) then Some(offsets) else None
  {
    var body, offsets, size, start :=
      Header + Body(objects, 1), ObjectOffsets(objects), |objects| + 1, XrefOffset(objects);
    hide ReadStartXref, ReadXref, Fit, Body, ObjectOffsets, Dec;
    XrefHere(offsets, Trailer(size, start));
    ExpectHere(body, Xref(offsets) + Trailer(size, start));
    TableStarts(Dec(|offsets| + 1) + ("\n" + (FreeEntry + Entries(offsets))), Trailer(size, start));
    Assoc(body, Xref(offsets), Trailer(size, start));
    TrailerEnd(body + Xref(offsets), Dec(size), start, File(objects));
  }

  lemma TableStarts(s: string, t: string)
    ensures StartsWith("xref\n0 " + s + t, "xref\n")
  {
  }

  lemma TrailerEnd(head: string, size: string, n: nat, file: string)
    requires file == head + ("trailer\n<< /Size " + (size + (" /Root 1 0 R >>\nstartxref\n" + (Dec(n) + "\n%%EOF"))))
    ensures ReadStartXref(file) == Some(n)
  {
    var before := head + ("trailer\n<< /Size " + (size + " /Root 1 0 R >>\n"));
    StartXrefHere(before, n);
    TrailerRegroup(head, size, Dec(n));
  }

  lemma TrailerRegroup(head: string, size: string, n: string)
    ensures head + ("trailer\n<< /Size " + (size + (" /Root 1 0 R >>\nstartxref\n" + (n + "\n%%EOF"))))
         == head + ("trailer\n<< /Size " + (size + " /Root 1 0 R >>\n")) + ("startxref\n" + (n + "\n%%EOF"))
  {
    assert " /Root 1 0 R >>\nstartxref\n" == " /Root 1 0 R >>\n" + "startxref\n";
  }

  /** Where the last object begins: the only number the table could fail to hold. */
  function LastOffset(lines: seq<string>): nat {
    OffsetsLength(Objects(lines), 1, |Header|);
    ObjectOffsets(Objects(lines))[4]
  }

  lemma OffsetsFit(lines: seq<string>)
    ensures Fit(ObjectOffsets(Objects(lines))) <==> LastOffset(lines) < Pow10(10)
  {
    OffsetsLength(Objects(lines), 1, |Header|);
    hide Offsets, Objects, Pow10;
    forall i | 0 <= i < 5 ensures ObjectOffsets(Objects(lines))[i] <= LastOffset(lines) {
      OffsetsGrow(Objects(lines), 1, |Header|, i, 4);
    }
  }

  // ---- From the trailer to the page of a written file ----

  lemma RefHere(pre: string, key: string, n: nat, post: string, i: nat)
    requires i < |key| && key[i] !in pre && key[i] !in key[..i]
    ensures ReadRef(pre + key + (Dec(n) + (" 0 R" + post)), key) == Some(n)
  {
    var tail := Dec(n) + (" 0 R" + post);
    FindByMark(pre, key, tail, i);
    assert (pre + key + tail)[|pre| + |key|..] == tail;
    hide Find, Dec, ReadNumeral;
    NumeralHere(n, " 0 R" + post);
    ExpectHere(" 0 R", post);
  }

  lemma SmallNumerals()
    ensures Dec(1) == "1" && Dec(2) == "2" && Dec(3) == "3" && Dec(4) == "4" && Dec(5) == "5"
  {
  }

  lemma CatalogRefers()
    ensures ReadRef(Catalog, "/Pages ") == Some(2)
  {
    SmallNumerals();
    CatalogParts();
    hide ReadRef, Dec;
    RefHere("<< /Type /Catalog ", "/Pages ", 2, " >>", 1);
  }

  lemma CatalogParts()
    ensures Catalog == "<< /Type /Catalog " + "/Pages " + ("2" + (" 0 R" + " >>"))
    ensures 'P' !in "<< /Type /Catalog "
  {
  }

  lemma CatalogIsOneLine()
    ensures '\n' !in Catalog
  {
  }

  lemma PageTreeRefers()
    ensures ReadRef(PageTree, "/Kids [") == Some(3)
  {
    SmallNumerals();
    PageTreeParts();
    hide ReadRef, Dec;
    RefHere("<< /Type /Pages ", "/Kids [", 3, "] /Count 1 >>", 1);
  }

  lemma PageTreeParts()
    ensures PageTree == "<< /Type /Pages " + "/Kids [" + ("3" + (" 0 R" + "] /Count 1 >>"))
    ensures 'K' !in "<< /Type /Pages "
  {
  }

  lemma PageTreeIsOneLine()
    ensures '\n' !in PageTree
  {
  }

  lemma Regroup<T>(pre: seq<T>, key: seq<T>, n: seq<T>, ref: seq<T>, end: seq<T>, more: seq<T>)
    ensures pre + (key + (n + (ref + end)) + more) == pre + key + (n + (ref + (end + more)))
    ensures pre + (key + (n + (ref + end))) == pre + key + (n + (ref + end))
  {
    assert (key + (n + (ref + end))) + more == key + (n + (ref + (end + more)));
  }

  lemma PageParts()
    ensures "/Contents 4 0 R " == "/Contents " + ("4" + (" 0 R" + " "))
    ensures Resources == "/Resources << /Font << /F1 " + ("5" + (" 0 R" + " >> >> >>"))
    ensures 'C' !in PageHead + MediaBox && 'u' !in PageHead + MediaBox && 'u' !in "/Contents 4 0 R "
    ensures '\n' !in PageHead + MediaBox && '\n' !in "/Contents 4 0 R " && '\n' !in Resources
  {
    NotInHead();
    NotInBox();
    ContentsParts();
    ResourcesParts();
    hide *;
  }

  lemma ContentsParts()
    ensures "/Contents 4 0 R " == "/Contents " + ("4" + (" 0 R" + " "))
    ensures 'u' !in "/Contents 4 0 R " && '\n' !in "/Contents 4 0 R "
  {
  }

  lemma ResourcesParts()
    ensures Resources == "/Resources << /Font << /F1 " + ("5" + (" 0 R" + " >> >> >>")) && '\n' !in Resources
  {
  }

  lemma NotInHead()
    ensures 'C' !in PageHead && 'u' !in PageHead && '\n' !in PageHead
  {
  }

  lemma NotInBox()
    ensures 'C' !in MediaBox && 'u' !in MediaBox && '\n' !in MediaBox
  {
  }

  lemma PageRefersToContents()
    ensures ReadRef(Page, "/Contents ") == Some(4)
  {
    SmallNumerals();
    PageParts();
    hide ReadRef, Dec;
    Regroup(PageHead + MediaBox, "/Contents ", "4", " 0 R", " ", Resources);
    RefHere(PageHead + MediaBox, "/Contents ", 4, " " + Resources, 1);
  }

  lemma PageRefersToFont()
    ensures ReadRef(Page, "/Resources << /Font << /F1 ") == Some(5)
  {
    SmallNumerals();
    PageParts();
    FontKey();
    hide ReadRef, Dec;
    var pre := PageHead + MediaBox + "/Contents 4 0 R ";
    Assoc(PageHead + MediaBox, "/Contents 4 0 R ", Resources);
    Regroup(pre, "/Resources << /Font << /F1 ", "5", " 0 R", " >> >> >>", "");
    RefHere(pre, "/Resources << /Font << /F1 ", 5, " >> >> >>", 5);
  }

  lemma FontKey()
    ensures var key := "/Resources << /Font << /F1 "; key[5] == 'u' && key[5] !in key[..5]
  {
  }

  lemma FontIsFont()
    ensures '\n' !in Font && StartsWith(Font, "<< /Type /Font ")
  {
    FontIsOneLine();
    ExpectHere("<< /Type /Font ", "/Subtype /Type1 /BaseFont /Helvetica >>");
  }

  lemma FontIsOneLine()
    ensures '\n' !in "<< /Type /Font " && '\n' !in "/Subtype /Type1 /BaseFont /Helvetica >>"
  {
  }

  /** Each object of a written file is found under its number. */
  lemma ObjectIsAt(objects: seq<string>, n: nat)
    requires n < |objects|
    ensures var found := ObjectAt(File(objects), ObjectOffsets(objects), n + 1);
            found.Some? && StartsWith(found.value, objects[n] + "\nendobj\n")
  {
    FileReads(objects);
    hide File, ObjectOffsets, ReadObject, ObjectText, ReadXref, ReadStartXref, Fit;
    ObjectHere(n + 1, objects[n], File(objects)[ObjectOffsets(objects)[n]..]);
  }

  lemma DictIsAt(objects: seq<string>, n: nat)
    requires n < |objects| && '\n' !in objects[n]
    ensures DictAt(File(objects), ObjectOffsets(objects), n + 1) == Some(objects[n])
  {
    ObjectIsAt(objects, n);
    hide ObjectAt, File, ObjectOffsets, Find;
    EndFound(objects[n], ObjectAt(File(objects), ObjectOffsets(objects), n + 1).value);
  }

  lemma EndFound(d: string, s: string)
    requires '\n' !in d && StartsWith(s, d + "\nendobj\n")
    ensures Find(s, "\nendobj\n") == |d| && s[..|d|] == d
  {
    var end := "\nendobj\n";
    var rest := s[|d + end|..];
    assert s == d + end + rest;
    hide Find;
    FindByMark(d, end, rest, 0);
  }

  lemma DigitsAreNoLetters(n: nat)
    ensures 'R' !in Dec(n) && 't' !in Dec(n) && 't' !in Pad10(n)
  {
    DecReads(n);
    Pad10Reads(n);
  }

  lemma {:induction false} NoLetterInEntries(offsets: seq<nat>)
    ensures 't' !in Entries(offsets)
  {
    if offsets != [] {
      DigitsAreNoLetters(offsets[0]);
      NoLetterInEntries(offsets[1..]);
      hide Pad10;
    }
  }

  lemma TableStartsAt(objects: seq<string>)
    ensures var start := XrefOffset(objects);
            && start <= |File(objects)|
            && File(objects)[start..] == Xref(ObjectOffsets(objects)) + Trailer(|objects| + 1, start)
  {
    hide Body, Xref, ObjectOffsets, Trailer;
    ExpectHere(Header + Body(objects, 1), Xref(ObjectOffsets(objects)) + Trailer(|objects| + 1, XrefOffset(objects)));
  }

  lemma NoLetterInTable(offsets: seq<nat>)
    ensures 't' !in Xref(offsets)
  {
    NoLetterInEntries(offsets);
    DigitsAreNoLetters(|offsets| + 1);
    hide Dec, Entries;
    assert 't' !in "xref\n0 " && 't' !in FreeEntry && 't' !in "\n";
  }

  lemma RootHere(objects: seq<string>)
    ensures XrefOffset(objects) <= |File(objects)|
    ensures ReadRoot(File(objects)[XrefOffset(objects)..]) == Some(1)
    ensures ReadSize(File(objects)[XrefOffset(objects)..]) == Some(|objects| + 1)
  {
    var size, start := |objects| + 1, XrefOffset(objects);
    var table, post := Xref(ObjectOffsets(objects)), " >>\nstartxref\n" + (Dec(start) + "\n%%EOF");
    TableStartsAt(objects);
    NoLetterInTable(ObjectOffsets(objects));
    TrailerParts(size, start, post);
    hide ObjectOffsets, Xref, Find, ReadRef, XrefOffset, File, Dec, Trailer;
    var t := "<< /Size " + (Dec(size) + (" /Root 1 0 R" + post));
    TrailerRefers(size, post);
    Assoc(table, "trailer\n", t);
    FindByMark(table, "trailer\n", t, 0);
    assert (table + ("trailer\n" + t))[|table|..] == "trailer\n" + t;
    SizeHere(size, " /Root 1 0 R" + post);
  }

  lemma SizeHere(size: nat, rest: string)
    requires rest != "" && !IsDigit(rest[0])
    ensures var s := "trailer\n" + ("<< /Size " + (Dec(size) + rest));
            && Expect(s, "trailer\n<< /Size ") == Some(Dec(size) + rest)
            && ReadNumeral(Dec(size) + rest) == Some(Numeral(size, rest))
  {
    NumeralHere(size, rest);
    hide Dec, ReadNumeral;
    assert "trailer\n" + "<< /Size " == "trailer\n<< /Size ";
    Assoc("trailer\n", "<< /Size ", Dec(size) + rest);
    ExpectHere("trailer\n<< /Size ", Dec(size) + rest);
  }

  lemma TrailerParts(size: nat, start: nat, post: string)
    requires post == " >>\nstartxref\n" + (Dec(start) + "\n%%EOF")
    ensures Trailer(size, start) == "trailer\n" + ("<< /Size " + (Dec(size) + (" /Root 1 0 R" + post)))
  {
    hide Dec;
    RootParts(Dec(start) + "\n%%EOF");
    Assoc("trailer\n", "<< /Size ", Dec(size) + (" /Root 1 0 R" + post));
    assert "trailer\n" + "<< /Size " == "trailer\n<< /Size ";
  }

  lemma RootParts(end: string)
    ensures " /Root 1 0 R >>\nstartxref\n" + end == " /Root 1 0 R" + (" >>\nstartxref\n" + end)
  {
    assert " /Root 1 0 R >>\nstartxref\n" == " /Root 1 0 R" + " >>\nstartxref\n";
    Assoc(" /Root 1 0 R", " >>\nstartxref\n", end);
  }

  lemma TrailerRefers(size: nat, post: string)
    ensures ReadRef("trailer\n" + ("<< /Size " + (Dec(size) + (" /Root 1 0 R" + post))), "/Root ") == Some(1)
  {
    SmallNumerals();
    DigitsAreNoLetters(size);
    hide Dec, ReadRef;
    var pre := "trailer\n<< /Size " + Dec(size) + " ";
    SizeParts(Dec(size), post);
    assert 'R' !in "trailer\n<< /Size ";
    RefHere(pre, "/Root ", 1, post, 1);
  }

  lemma SizeParts(d: string, post: string)
    ensures "trailer\n" + ("<< /Size " + (d + (" /Root 1 0 R" + post)))
         == "trailer\n<< /Size " + d + " " + "/Root " + ("1" + (" 0 R" + post))
  {
    assert "trailer\n" + "<< /Size " == "trailer\n<< /Size ";
    assert " /Root 1 0 R" == " " + "/Root " + ("1" + " 0 R");
  }

  /** Following the references from the trailer leads to the page that the writer wrote, to its font and
      to its contents. */
  lemma PageFound(lines: seq<string>)
    ensures var file, offsets := File(Objects(lines)), ObjectOffsets(Objects(lines));
            && ReadPage(file, offsets, Some(1)) == Some(3) && HasFont(file, offsets, Some(3))
            && Follow(file, offsets, Some(3), "/Contents ") == Some(4)
  {
    hide *;
    var objects := Objects(lines);
    PagesFound(objects, lines);
    ContentsFound(objects, lines);
    FontFound(objects, lines);
  }

  lemma FollowHere(objects: seq<string>, n: nat, key: string, m: nat)
    requires n < |objects| && '\n' !in objects[n] && ReadRef(objects[n], key) == Some(m)
    ensures Follow(File(objects), ObjectOffsets(objects), Some(n + 1), key) == Some(m)
  {
    hide File, ObjectOffsets, DictAt, ReadRef;
    DictIsAt(objects, n);
  }

  lemma PagesFound(objects: seq<string>, lines: seq<string>)
    requires objects == Objects(lines)
    ensures ReadPage(File(objects), ObjectOffsets(objects), Some(1)) == Some(3)
  {
    ObjectsAre(lines);
    CatalogRefers();
    CatalogIsOneLine();
    PageTreeRefers();
    PageTreeIsOneLine();
    hide File, ObjectOffsets, Objects, Follow, ReadRef, Catalog, PageTree;
    FollowHere(objects, 0, "/Pages ", 2);
    FollowHere(objects, 1, "/Kids [", 3);
  }

  lemma ObjectsAre(lines: seq<string>)
    ensures var o := Objects(lines);
            |o| == 5 && o[0] == Catalog && o[1] == PageTree && o[2] == Page && o[4] == Font
  {
  }

  lemma PageIsOneLine()
    ensures '\n' !in Page
  {
    PageParts();
    hide PageHead, MediaBox, Resources;
  }

  lemma ContentsFound(objects: seq<string>, lines: seq<string>)
    requires objects == Objects(lines)
    ensures Follow(File(objects), ObjectOffsets(objects), Some(3), "/Contents ") == Some(4)
  {
    ObjectsAre(lines);
    PageRefersToContents();
    PageIsOneLine();
    hide *;
    FollowHere(objects, 2, "/Contents ", 4);
  }

  lemma FontFound(objects: seq<string>, lines: seq<string>)
    requires objects == Objects(lines)
    ensures HasFont(File(objects), ObjectOffsets(objects), Some(3))
  {
    ObjectsAre(lines);
    PageRefersToFont();
    PageIsOneLine();
    FontIsFont();
    hide File, ObjectOffsets, Objects, DictAt, ReadRef, StartsWith, Follow, Page, Font;
    FollowHere(objects, 2, "/Resources << /Font << /F1 ", 5);
    DictIsAt(objects, 4);
  }

  /** Reading back what the writer wrote gives the lines, with their ends of line as line feeds, or
      nothing at all when an offset no longer fits the table. */
  lemma WrittenFileReads(lines: seq<string>)
    ensures ReadPdf(File(Objects(lines))) == if LastOffset(lines) < Pow10(10) then Some(NormalLines(lines)) else None
  {
    var objects, content := Objects(lines), Content(lines);
    FileReads(objects);
    OffsetsFit(lines);
    ContentHere(lines);
    ObjectFour(lines);
    RootHere(objects);
    OffsetCount(objects);
    HeaderHere(objects);
    PageFound(lines);
    hide Objects, File, Content, ReadXref, ReadStartXref, ReadContent, ReadStream, Fit, Pow10, ObjectText, StreamObject,
      ObjectOffsets, ReadPage, ReadRoot, HasFont, Follow, ObjectAt, LastOffset, ReadSize, StartsWith;
    ObjectIsAt(objects, 3);
    StreamInside(content, ObjectAt(File(objects), ObjectOffsets(objects), 4).value);
  }

  lemma HeaderHere(objects: seq<string>)
    ensures StartsWith(File(objects), "%PDF-1.4\n")
  {
    hide Body, Xref, Trailer, ObjectOffsets;
    FileParts(objects);
    ExpectHere(Header, Body(objects, 1) + (Xref(ObjectOffsets(objects)) + Trailer(|objects| + 1, XrefOffset(objects))));
  }

  lemma ObjectFour(lines: seq<string>)
    ensures |Objects(lines)| == 5 && Objects(lines)[3] == StreamObject(Content(lines))
  {
  }

  lemma StreamInside(content: string, s: string)
    requires StartsWith(s, StreamObject(content) + "\nendobj\n")
    ensures ReadStream(s) == Some(content)
  {
    var t := StreamObject(content);
    var rest := s[|t|..];
    assert s == t + rest by { assert s[..|t|] == (t + "\nendobj\n")[..|t|]; }
    StreamHere(content, rest);
  }

  lemma {:induction false} NormalLinesKeep(lines: seq<string>)
    ensures NormalLines(lines) == lines <==> forall i | 0 <= i < |lines| :: '\r' !in lines[i]
  {
    if lines != [] {
      NormalKeeps(lines[0]);
      NormalLinesKeep(lines[1..]);
      assert lines == [lines[0]] + lines[1..];
      assert NormalLines(lines) == lines <==> Normal(lines[0]) == lines[0] && NormalLines(lines[1..]) == lines[1..] by {
        assert NormalLines(lines)[1..] == NormalLines(lines[1..]);
      }
      assert (forall i | 0 <= i < |lines[1..]| :: '\r' !in lines[1..][i])
        <==> (forall i | 1 <= i < |lines| :: '\r' !in lines[i]) by {
        assert forall i | 1 <= i < |lines| :: lines[i] == lines[1..][i - 1];
      }
    }
  }

  /** The text round trip holds exactly for files whose offsets fit and lines without a raw carriage
      return. */
  lemma TextRoundTrip(lines: seq<string>)
    ensures ReadPdf(File(Objects(lines))) == Some(lines)
            <==> LastOffset(lines) < Pow10(10) && forall i | 0 <= i < |lines| :: '\r' !in lines[i]
  {
    WrittenFileReads(lines);
    NormalLinesKeep(lines);
  }

  /** A file of at most 10 ** 10 bytes is always readable. */
  lemma ShortFilesFit(lines: seq<string>)
    requires |File(Objects(lines))| <= Pow10(10)
    ensures LastOffset(lines) < Pow10(10)
  {
    OffsetsGrow(Objects(lines), 1, |Header|, 4, 4);
    assert |Xref(ObjectOffsets(Objects(lines)))| > 0;
  }
}
