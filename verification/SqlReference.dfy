/** How a multi-statement SQL text divides into statements.

    The reading follows PostgreSQL's dollar-quoted strings (section 4.1.2.4 of its manual) as the
    scanner takes them: outside a quote, `$tag$` opens one, and the quote ends at the first later
    occurrence of the same `$tag$`. Only a semicolon outside every quote separates statements.

    It departs from that section where the scanner does: a tag may start with a digit, as in `$1$`,
    and a quote may open inside an identifier, as in `a$b$`; see `ReadsAsTheManualExactly`. */
module SqlReference {
  import opened Text

  predicate TagChar(cs: Chars, c: char) { c in cs.alnum || c == '_' }

  /** Length of the longest run of tag characters at the start of `s`. */
  function TagRun(cs: Chars, s: string): (n: nat)
    ensures n <= |s|
  {
    if s == "" || !TagChar(cs, s[0]) then 0 else 1 + TagRun(cs, s[1..])
  }

  /** Length of the `$tag$` that `s` starts with, 0 when it starts with none. */
  function OpenerLen(cs: Chars, s: string): (n: nat)
    ensures n <= |s|
    ensures n != 0 ==> n >= 2 && s[0] == '$' && s[n - 1] == '$'
  {
    if s == "" || s[0] != '$' then 0
    else
      var n := TagRun(cs, s[1..]);
      if n + 1 < |s| && s[n + 1] == '$' then n + 2 else 0
  }

  /** `s` starts with a quote that is never closed. */
  predicate Unclosed(cs: Chars, s: string) {
    var n := OpenerLen(cs, s);
    n > 0 && Find(s[n..], s[..n]) < 0
  }

  /** Length of the first lexical element of `s`: a whole quote, or one character. */
  function Head(cs: Chars, s: string): (h: nat)
    requires s != ""
    ensures 0 < h <= |s|
  {
    var n := OpenerLen(cs, s);
    if n == 0 then 1
    else
      var k := Find(s[n..], s[..n]);
      if k < 0 then |s| else n + k + n
  }

  /** The stretches of text between top-level semicolons, untrimmed and in order. */
  datatype Segments = Last(text: string) | Then(text: string, rest: Segments)

  function Prepend(p: string, g: Segments): Segments {
    match g
    case Last(t) => Last(p + t)
    case Then(t, rest) => Then(p + t, rest)
  }

  function Raw(cs: Chars, s: string): Segments
    decreases |s|
  {
    if s == "" then Last("")
    else if s[0] == ';' then Then("", Raw(cs, s[1..]))
    else Prepend(s[..Head(cs, s)], Raw(cs, s[Head(cs, s)..]))
  }

  /** Reading `s` to its end leaves no quote open. */
  predicate Closed(cs: Chars, s: string)
    decreases |s|
  {
    s == "" || (!Unclosed(cs, s) && Closed(cs, s[Head(cs, s)..]))
  }

  function Emit(cs: Chars, done: seq<string>, text: string): seq<string> {
    var t := Trim(cs, text);
    if t != "" then done + [t] else done
  }

  /** `done` followed by the trimmed segments that are not blank. */
  function Collect(cs: Chars, done: seq<string>, g: Segments): seq<string>
    decreases g
  {
    match g
    case Last(t) => Emit(cs, done, t)
    case Then(t, rest) => Collect(cs, Emit(cs, done, t), rest)
  }

  function Split(cs: Chars, s: string): seq<string> {
    Collect(cs, [], Raw(cs, s))
  }

  /** Statements written one after the other with a semicolon between neighbours. */
  function Join(l: seq<string>): string {
    if l == [] then "" else if |l| == 1 then l[0] else l[0] + ";" + Join(l[1..])
  }

  /** The text a list of segments came from. */
  function Rejoin(g: Segments): string {
    match g
    case Last(t) => t
    case Then(t, rest) => t + ";" + Rejoin(rest)
  }

  function Append(a: Segments, b: Segments): Segments {
    match a
    case Last(t) => Then(t, b)
    case Then(t, rest) => Then(t, Append(rest, b))
  }

  // ---- Searching ----

  /** An occurrence in `x + y` that lies inside `x` is an occurrence in `x`, and conversely. */
  lemma OccursInPrefix(x: string, y: string, t: string, j: int)
    requires 0 <= j && j + |t| <= |x|
    ensures OccursAt(x + y, t, j) <==> OccursAt(x, t, j)
  {
    assert (x + y)[j..j + |t|] == x[j..j + |t|];
  }

  lemma FindInPrefix(x: string, y: string, t: string)
    ensures Find(x, t) >= 0 ==> Find(x + y, t) == Find(x, t)
    ensures 0 <= Find(x + y, t) <= |x| - |t| ==> Find(x, t) == Find(x + y, t)
  {
    var k, m := Find(x, t), Find(x + y, t);
    FindOccurs(x, t);
    FindOccurs(x + y, t);
    if k >= 0 {
      OccursInPrefix(x, y, t, k);
      FindIsFirst(x + y, t, k);
      OccursInPrefix(x, y, t, m);
      FindIsFirst(x, t, m);
    }
    if 0 <= m <= |x| - |t| {
      OccursInPrefix(x, y, t, m);
      FindIsFirst(x, t, m);
      OccursInPrefix(x, y, t, Find(x, t));
      FindIsFirst(x + y, t, Find(x, t));
    }
  }

  lemma OccurrenceHolds(s: string, t: string, k: nat, i: nat)
    requires OccursAt(s, t, k) && k <= i < k + |t|
    ensures s[i] in t
  {
    assert s[i] == s[k..k + |t|][i - k];
  }

  lemma OccurrenceEnds(s: string, t: string, k: nat)
    requires OccursAt(s, t, k) && t != ""
    ensures s[k + |t| - 1] == t[|t| - 1]
  {
    assert s[k + |t| - 1] == s[k..k + |t|][|t| - 1];
  }

  /** A character foreign to `t` is never inside an occurrence of `t`. */
  lemma FindPastChar(x: string, c: char, y: string, t: string)
    requires c !in t && t != ""
    ensures Find(x, t) < 0 ==> Find(x + [c] + y, t) < 0 || Find(x + [c] + y, t) > |x|
  {
    var s := x + [c] + y;
    var k := Find(s, t);
    FindOccurs(s, t);
    if Find(x, t) < 0 && 0 <= k <= |x| {
      if k + |t| <= |x| {
        assert s == x + ([c] + y);
        FindInPrefix(x, [c] + y, t);
      } else {
        OccurrenceHolds(s, t, k, |x|);
      }
    }
  }

  // ---- Openers ----

  lemma {:induction false} TagRunChars(cs: Chars, s: string, k: nat)
    requires k < |s|
    ensures k < TagRun(cs, s) ==> TagChar(cs, s[k])
    ensures k == TagRun(cs, s) ==> !TagChar(cs, s[k])
  {
    if k > 0 && TagChar(cs, s[0]) { TagRunChars(cs, s[1..], k - 1); }
  }

  /** The run is cut short by nothing but its own end. */
  lemma {:induction false} TagRunPrefix(cs: Chars, x: string, y: string)
    ensures TagRun(cs, x) < |x| || y == "" || !TagChar(cs, y[0]) ==> TagRun(cs, x + y) == TagRun(cs, x)
    ensures TagRun(cs, x) == |x| ==> TagRun(cs, x + y) >= |x|
  {
    if x == "" {
      assert x + y == y;
    } else if TagChar(cs, x[0]) {
      assert (x + y)[1..] == x[1..] + y;
      TagRunPrefix(cs, x[1..], y);
    }
  }

  /** A dollar, a tag of letters, digits and underscores, and a dollar. */
  ghost predicate IsOpener(cs: Chars, t: string) {
    && |t| >= 2 && t[0] == '$' && t[|t| - 1] == '$'
    && forall k | 1 <= k < |t| - 1 :: t[k] in cs.alnum || t[k] == '_'
  }

  lemma {:induction false} TagRunIs(cs: Chars, s: string, n: nat)
    requires n <= |s| && (forall k | 0 <= k < n :: TagChar(cs, s[k])) && (n < |s| ==> !TagChar(cs, s[n]))
    ensures TagRun(cs, s) == n
  {
    if n > 0 { TagRunIs(cs, s[1..], n - 1); }
  }

  /** A text starts with an opener exactly when some such string starts it, and there is one at most. */
  lemma OpenerExactly(cs: Chars, s: string, n: nat)
    requires 0 < n <= |s|
    ensures IsOpener(cs, s[..n]) <==> OpenerLen(cs, s) == n
  {
    if IsOpener(cs, s[..n]) {
      forall k | 0 <= k < n - 2 ensures TagChar(cs, s[1..][k]) { assert s[..n][k + 1] == s[1..][k]; }
      assert s[1..][n - 2] == s[..n][n - 1];
      TagRunIs(cs, s[1..], n - 2);
    }
    if OpenerLen(cs, s) == n {
      forall k | 1 <= k < n - 1 ensures TagChar(cs, s[..n][k]) { TagRunChars(cs, s[1..], k - 1); }
    }
  }

  lemma OpenerHasNoSemicolon(cs: Chars, s: string)
    ensures ';' !in s[..OpenerLen(cs, s)]
  {
    var n := OpenerLen(cs, s);
    forall k | 0 <= k < n ensures s[k] != ';' {
      if 0 < k < n - 1 {
        TagRunChars(cs, s[1..], k - 1);
      }
    }
  }

  /** Text that follows `x` takes no part in the opener `x` starts with; it makes no new one
      unless it begins with a tag character or a dollar. */
  lemma OpenerPrefix(cs: Chars, x: string, y: string)
    ensures OpenerLen(cs, x) > 0 ==> OpenerLen(cs, x + y) == OpenerLen(cs, x)
    ensures OpenerLen(cs, x + y) == 0 ==> OpenerLen(cs, x) == 0
    ensures OpenerLen(cs, x + y) <= |x| ==> OpenerLen(cs, x) == OpenerLen(cs, x + y)
    ensures x != "" && y != "" && !TagChar(cs, y[0]) && y[0] != '$' ==> OpenerLen(cs, x + y) == OpenerLen(cs, x)
  {
    if x != "" && x[0] == '$' {
      assert (x + y)[1..] == x[1..] + y;
      TagRunPrefix(cs, x[1..], y);
    } else if x == "" {
      assert x + y == y;
    }
  }

  // ---- Lexical elements ----

  /** A complete element keeps its length whatever text follows. */
  lemma HeadPrefix(cs: Chars, x: string, y: string)
    requires x != "" && !Unclosed(cs, x)
    requires OpenerLen(cs, x) == 0 ==> OpenerLen(cs, x + y) == 0
    ensures !Unclosed(cs, x + y) && Head(cs, x + y) == Head(cs, x)
  {
    var n := OpenerLen(cs, x);
    if n > 0 {
      OpenerPrefix(cs, x, y);
      Cut(x, y, n);
      FindInPrefix(x[n..], y, x[..n]);
    }
  }

  /** A quote that is open at a semicolon swallows the semicolon. */
  lemma UnclosedSwallows(cs: Chars, x: string, y: string)
    requires Unclosed(cs, x)
    ensures Head(cs, x + ";" + y) > |x|
  {
    var n := OpenerLen(cs, x);
    Assoc(x, ";", y);
    OpenerPrefix(cs, x, ";" + y);
    OpenerHasNoSemicolon(cs, x);
    Cut(x, ";" + y, n);
    Assoc(x[n..], ";", y);
    FindPastChar(x[n..], ';', y, x[..n]);
  }

  lemma RawElement(cs: Chars, s: string, h: nat)
    requires s != "" && s[0] != ';' && h == Head(cs, s)
    ensures Raw(cs, s) == Prepend(s[..h], Raw(cs, s[h..]))
  {
  }

  lemma ClosedElement(cs: Chars, s: string, h: nat)
    requires s != "" && !Unclosed(cs, s) && h == Head(cs, s)
    ensures Closed(cs, s) <==> Closed(cs, s[h..])
  {
  }

  lemma PrependTwice(p: string, q: string, g: Segments)
    ensures Prepend(p, Prepend(q, g)) == Prepend(p + q, g)
  {
    assert p + (q + g.text) == p + q + g.text;
  }

  lemma PrependNothing(g: Segments)
    ensures Prepend("", g) == g
  {
    assert "" + g.text == g.text;
  }

  lemma PrependAppend(p: string, a: Segments, b: Segments)
    ensures Append(Prepend(p, a), b) == Prepend(p, Append(a, b))
  {
  }

  // ---- The laws of splitting ----

  /** Nothing is lost: the segments rejoined with their semicolons are the input. */
  lemma {:induction false} RawConserves(cs: Chars, s: string)
    ensures Rejoin(Raw(cs, s)) == s
    decreases |s|
  {
    if s == "" {
    } else if s[0] == ';' {
      RawConserves(cs, s[1..]);
    } else {
      var h := Head(cs, s);
      RawElement(cs, s, h);
      RawConserves(cs, s[h..]);
      RejoinPrepend(s[..h], Raw(cs, s[h..]));
      Slices(s, h, 0);
    }
  }

  lemma RejoinPrepend(p: string, g: Segments)
    ensures Rejoin(Prepend(p, g)) == p + Rejoin(g)
  {
    match g
    case Last(t) =>
    case Then(t, rest) => assert p + t + ";" + Rejoin(rest) == p + (t + ";" + Rejoin(rest));
  }

  lemma ElementBeforeSemicolon(cs: Chars, a: string, b: string)
    requires a != "" && a[0] != ';'
    ensures !Unclosed(cs, a) ==> Head(cs, a + ";" + b) == Head(cs, a)
    ensures (a + ";" + b)[0] == a[0]
    ensures a + ";" + b == a + (";" + b)
  {
    assert a + ";" + b == a + (";" + b);
    if !Unclosed(cs, a) {
      OpenerPrefix(cs, a, ";" + b);
      HeadPrefix(cs, a, ";" + b);
    }
  }

  /** A semicolon separates exactly when the text before it leaves no quote open; this includes
      text that ends in an unfinished `$tag`. */
  lemma {:induction false} SemicolonSeparates(cs: Chars, a: string, b: string)
    ensures Closed(cs, a) <==> Raw(cs, a + ";" + b) == Append(Raw(cs, a), Raw(cs, b))
    decreases |a|
  {
    var s := a + ";" + b;
    if a == "" {
      assert s == ";" + b && s[1..] == b;
    } else if a[0] == ';' {
      assert s[1..] == a[1..] + ";" + b;
      SemicolonSeparates(cs, a[1..], b);
    } else if Unclosed(cs, a) {
      UnclosedFirst(cs, a, b);
    } else {
      ElementBeforeSemicolon(cs, a, b);
      ElementSeparates(cs, a, b, Head(cs, a));
    }
  }

  lemma {:induction false} ElementSeparates(cs: Chars, a: string, b: string, h: nat)
    requires a != "" && a[0] != ';' && !Unclosed(cs, a)
    requires h == Head(cs, a) == Head(cs, a + ";" + b)
    ensures Closed(cs, a) <==> Raw(cs, a + ";" + b) == Append(Raw(cs, a), Raw(cs, b))
    decreases |a|, 0
  {
    var s, p, rest := a + ";" + b, a[..h], a[h..];
    SemicolonSeparates(cs, rest, b);
    Assoc(a, ";", b);
    Assoc(rest, ";", b);
    Cut(a, ";" + b, h);
    RawElement(cs, s, h);
    RawElement(cs, a, h);
    ClosedElement(cs, a, h);
    PrependAppend(p, Raw(cs, rest), Raw(cs, b));
    PrependInjective(p, Raw(cs, rest + ";" + b), Append(Raw(cs, rest), Raw(cs, b)));
  }

  lemma PrependInjective(p: string, g: Segments, g': Segments)
    ensures Prepend(p, g) == Prepend(p, g') <==> g == g'
  {
    if Prepend(p, g) == Prepend(p, g') {
      assert g.text == (p + g.text)[|p|..] && g'.text == (p + g'.text)[|p|..];
    }
  }

  lemma UnclosedFirst(cs: Chars, a: string, b: string)
    requires Unclosed(cs, a)
    ensures Raw(cs, a) == Last(a) && !Closed(cs, a)
    ensures Raw(cs, a + ";" + b) != Append(Raw(cs, a), Raw(cs, b))
  {
    var s := a + ";" + b;
    assert a[..|a|] + "" == a;
    UnclosedSwallows(cs, a, b);
    assert s[0] == a[0] == '$';
    RawElement(cs, s, Head(cs, s));
    assert |Raw(cs, s).text| > |a|;
  }

  // ---- Splitting and joining ----

  predicate Single(cs: Chars, s: string) { Raw(cs, s).Last? }

  /** Statements a splitter can have produced: trimmed, not blank, without a top-level semicolon,
      and with no quote left open except perhaps in the last one. */
  predicate WellFormed(cs: Chars, l: seq<string>) {
    && (forall i | 0 <= i < |l| :: l[i] != "" && Trimmed(cs, l[i]) && Single(cs, l[i]))
    && (forall i | 0 <= i < |l| - 1 :: Closed(cs, l[i]))
  }

  lemma EmitAfter(cs: Chars, done: seq<string>, text: string)
    ensures Emit(cs, done, text) == done + Emit(cs, [], text)
  {
    hide Trim;
    assert [] + [Trim(cs, text)] == [Trim(cs, text)] && done + [] == done;
  }

  lemma {:induction false} CollectAfter(cs: Chars, done: seq<string>, g: Segments)
    ensures Collect(cs, done, g) == done + Collect(cs, [], g)
    decreases g
  {
    EmitAfter(cs, done, g.text);
    hide Emit;
    if g.Then? {
      CollectAfter(cs, Emit(cs, done, g.text), g.rest);
      CollectAfter(cs, Emit(cs, [], g.text), g.rest);
      Assoc(done, Emit(cs, [], g.text), Collect(cs, [], g.rest));
    }
  }

  lemma {:induction false} CollectAppend(cs: Chars, done: seq<string>, a: Segments, b: Segments)
    ensures Collect(cs, done, Append(a, b)) == Collect(cs, Collect(cs, done, a), b)
    decreases a
  {
    if a.Then? { CollectAppend(cs, Emit(cs, done, a.text), a.rest, b); }
  }

  /** Splitting distributes over a semicolon that follows closed text. */
  lemma SplitDistributes(cs: Chars, a: string, b: string)
    requires Closed(cs, a)
    ensures Split(cs, a + ";" + b) == Split(cs, a) + Split(cs, b)
  {
    SemicolonSeparates(cs, a, b);
    CollectAppend(cs, [], Raw(cs, a), Raw(cs, b));
    CollectAfter(cs, Split(cs, a), Raw(cs, b));
  }

  lemma SplitOne(cs: Chars, x: string)
    requires Trimmed(cs, x) && Single(cs, x)
    ensures Raw(cs, x) == Last(x)
    ensures Split(cs, x) == if x == "" then [] else [x]
  {
    RawConserves(cs, x);
    TrimFixpoints(cs, x);
  }

  lemma {:induction false} SplitUndoesJoin(cs: Chars, l: seq<string>)
    requires WellFormed(cs, l)
    ensures Split(cs, Join(l)) == l
  {
    if l == [] {
      SplitOne(cs, "");
    } else if |l| == 1 {
      SplitOne(cs, l[0]);
    } else {
      SplitOne(cs, l[0]);
      SplitDistributes(cs, l[0], Join(l[1..]));
      SplitUndoesJoin(cs, l[1..]);
      Slices(l, 1, 0);
    }
  }

  // ---- What splitting produces ----

  predicate SegmentsFit(cs: Chars, g: Segments) {
    Single(cs, g.text) && (g.Then? ==> Closed(cs, g.text) && SegmentsFit(cs, g.rest))
  }

  /** Cutting a text anywhere behind a complete element keeps the element. */
  lemma HeadOfCut(cs: Chars, s: string, m: nat)
    requires s != "" && !Unclosed(cs, s) && Head(cs, s) <= m <= |s|
    ensures !Unclosed(cs, s[..m]) && Head(cs, s[..m]) == Head(cs, s)
  {
    var x, y, n := s[..m], s[m..], OpenerLen(cs, s);
    assert s == x + y;
    OpenerPrefix(cs, x, y);
    if n > 0 {
      Cut(x, y, n);
      FindInPrefix(x[n..], y, x[..n]);
    }
  }

  lemma {:induction false} RawFits(cs: Chars, s: string)
    ensures SegmentsFit(cs, Raw(cs, s))
    decreases |s|
  {
    if s == "" {
    } else if s[0] == ';' {
      RawFits(cs, s[1..]);
    } else if Unclosed(cs, s) {
      UnclosedFirst(cs, s, "");
    } else {
      var h := Head(cs, s);
      RawFits(cs, s[h..]);
      RawElement(cs, s, h);
      FirstFits(cs, s, h, Raw(cs, s[h..]));
    }
  }

  lemma FirstIsPrefix(cs: Chars, s: string)
    ensures Raw(cs, s).text <= s
  {
    RawConserves(cs, s);
    RejoinStart(Raw(cs, s));
  }

  lemma RejoinStart(g: Segments)
    ensures g.text <= Rejoin(g)
  {
    if g.Then? { Assoc(g.text, ";", Rejoin(g.rest)); }
  }

  lemma FirstFits(cs: Chars, s: string, h: nat, g: Segments)
    requires s != "" && s[0] != ';' && !Unclosed(cs, s) && h == Head(cs, s)
    requires g == Raw(cs, s[h..]) && SegmentsFit(cs, g)
    ensures SegmentsFit(cs, Prepend(s[..h], g))
  {
    var m := h + |g.text|;
    FirstIsPrefix(cs, s[h..]);
    PrefixSlice(s, h, g.text);
    CutFits(cs, s, h, m, g.text);
    PrependFits(cs, s[..h], g, s[..m]);
  }

  lemma CutFits(cs: Chars, s: string, h: nat, m: nat, text: string)
    requires s != "" && s[0] != ';' && !Unclosed(cs, s) && h == Head(cs, s)
    requires h <= m <= |s| && s[..m][h..] == text
    ensures Single(cs, s[..m]) <==> Single(cs, text)
    ensures Closed(cs, s[..m]) <==> Closed(cs, text)
  {
    HeadOfCut(cs, s, m);
    TextFits(cs, s[..m], h, text);
  }

  lemma PrependFits(cs: Chars, p: string, g: Segments, x: string)
    requires SegmentsFit(cs, g) && x == p + g.text && Single(cs, x) && (g.Then? ==> Closed(cs, x))
    ensures SegmentsFit(cs, Prepend(p, g))
  {
  }

  lemma TextFits(cs: Chars, x: string, h: nat, text: string)
    requires x != "" && x[0] != ';' && !Unclosed(cs, x) && h == Head(cs, x) && text == x[h..]
    ensures Single(cs, x) <==> Single(cs, text)
    ensures Closed(cs, x) <==> Closed(cs, text)
  {
    RawElement(cs, x, h);
  }

  lemma FindPlainEnd(x: string, c: char, t: string)
    requires t != "" && t[|t| - 1] != c
    ensures Find(x + [c], t) == Find(x, t)
  {
    FindInPrefix(x, [c], t);
    var k := Find(x + [c], t);
    FindOccurs(x + [c], t);
    if k >= 0 && k + |t| == |x| + 1 {
      OccurrenceEnds(x + [c], t, k);
    }
  }

  /** A final character that is neither a dollar nor a semicolon changes nothing. */
  lemma {:induction false} PlainEnd(cs: Chars, y: string, c: char)
    requires c != '$' && c != ';'
    ensures Single(cs, y + [c]) <==> Single(cs, y)
    ensures Closed(cs, y + [c]) <==> Closed(cs, y)
    decreases |y|
  {
    var s := y + [c];
    if y == "" {
      assert OpenerLen(cs, s) == 0 && s[1..] == "";
    } else if y[0] == ';' {
      assert s[1..] == y[1..] + [c];
      PlainEnd(cs, y[1..], c);
    } else {
      OpenerPrefix(cs, y, [c]);
      var n := OpenerLen(cs, y);
      if n > 0 {
        assert s[..n] == y[..n] && s[n..] == y[n..] + [c];
        FindPlainEnd(y[n..], c, y[..n]);
      }
      if Unclosed(cs, y) {
        UnclosedFirst(cs, y, "");
        UnclosedFirst(cs, s, "");
      } else {
        PlainEndElement(cs, y, c, Head(cs, y));
      }
    }
  }

  lemma {:induction false} PlainEndElement(cs: Chars, y: string, c: char, h: nat)
    requires y != "" && y[0] != ';' && c != '$' && c != ';'
    requires !Unclosed(cs, y) && !Unclosed(cs, y + [c]) && h == Head(cs, y) == Head(cs, y + [c])
    ensures Single(cs, y + [c]) <==> Single(cs, y)
    ensures Closed(cs, y + [c]) <==> Closed(cs, y)
    decreases |y|, 0
  {
    var s := y + [c];
    assert s[h..] == y[h..] + [c];
    RawElement(cs, s, h);
    RawElement(cs, y, h);
    PlainEnd(cs, y[h..], c);
  }

  lemma {:induction false} TrimRightKeeps(cs: Chars, s: string)
    ensures Single(cs, TrimRight(cs, s)) <==> Single(cs, s)
    ensures Closed(cs, TrimRight(cs, s)) <==> Closed(cs, s)
    decreases |s|
  {
    if s != "" && s[|s| - 1] in cs.space {
      var y := s[..|s| - 1];
      assert s == y + [s[|s| - 1]];
      PlainEnd(cs, y, s[|s| - 1]);
      TrimRightKeeps(cs, y);
    }
  }

  lemma {:induction false} TrimLeftKeeps(cs: Chars, s: string)
    ensures Single(cs, TrimLeft(cs, s)) <==> Single(cs, s)
    ensures Closed(cs, TrimLeft(cs, s)) <==> Closed(cs, s)
    decreases |s|
  {
    if s != "" && s[0] in cs.space {
      TrimLeftKeeps(cs, s[1..]);
      RawElement(cs, s, 1);
    }
  }

  lemma TrimKeeps(cs: Chars, s: string)
    ensures Single(cs, Trim(cs, s)) <==> Single(cs, s)
    ensures Closed(cs, Trim(cs, s)) <==> Closed(cs, s)
    ensures Trimmed(cs, Trim(cs, s))
  {
    TrimLeftKeeps(cs, s);
    TrimRightKeeps(cs, TrimLeft(cs, s));
    TrimFixpoints(cs, s);
  }

  lemma WellFormedCons(cs: Chars, t: string, l: seq<string>)
    requires t != "" && Trimmed(cs, t) && Single(cs, t) && Closed(cs, t) && WellFormed(cs, l)
    ensures WellFormed(cs, [t] + l)
  {
    var m := [t] + l;
    assert forall i | 1 <= i < |m| :: m[i] == l[i - 1];
  }

  lemma {:induction false} CollectFits(cs: Chars, g: Segments)
    requires SegmentsFit(cs, g)
    ensures WellFormed(cs, Collect(cs, [], g))
    decreases g
  {
    var t := Trim(cs, g.text);
    TrimKeeps(cs, g.text);
    if g.Then? {
      CollectFits(cs, g.rest);
      if t != "" {
        assert [] + [t] == [t];
        CollectAfter(cs, [t], g.rest);
        WellFormedCons(cs, t, Collect(cs, [], g.rest));
      }
    }
  }

  /** Splitting a joined list gives the list back exactly when the list is well formed; lists that
      splitting produces always are, so a second split changes nothing. */
  lemma RoundTrip(cs: Chars, l: seq<string>, s: string)
    ensures Split(cs, Join(l)) == l <==> WellFormed(cs, l)
    ensures WellFormed(cs, Split(cs, s))
    ensures Split(cs, Join(Split(cs, s))) == Split(cs, s)
  {
    if WellFormed(cs, l) { SplitUndoesJoin(cs, l); }
    RawFits(cs, Join(l));
    CollectFits(cs, Raw(cs, Join(l)));
    RawFits(cs, s);
    CollectFits(cs, Raw(cs, s));
    SplitUndoesJoin(cs, Split(cs, s));
  }

  /** A dollar-quoted string is one piece: whatever its body holds, semicolons included, stays with
      the text around it, and reading resumes behind the closing tag. */
  lemma QuoteSurvives(cs: Chars, tag: string, body: string, rest: string)
    requires OpenerLen(cs, tag) == |tag| > 0 && Find(body + tag, tag) == |body|
    ensures Raw(cs, tag + body + tag + rest) == Prepend(tag + body + tag, Raw(cs, rest))
  {
    var s, n, q := tag + body + tag + rest, |tag|, tag + body + tag;
    QuoteThere(tag, body, rest);
    OpenerPrefix(cs, tag, body + tag + rest);
    FindInPrefix(body + tag, rest, tag);
    hide OpenerLen, Find, Raw;
    QuoteHead(cs, s, n, |body|);
    RawElement(cs, s, |q|);
  }

  lemma QuoteThere(tag: string, body: string, rest: string)
    ensures var s, q := tag + body + tag + rest, tag + body + tag;
            && s == tag + (body + tag + rest) && s[..|tag|] == tag && s[|tag|..] == (body + tag) + rest
            && s[..|q|] == q && s[|q|..] == rest
  {
  }

  lemma QuoteHead(cs: Chars, s: string, n: nat, k: nat)
    requires n > 0 && OpenerLen(cs, s) == n && Find(s[n..], s[..n]) == k
    ensures s != "" && Head(cs, s) == n + k + n
  {
  }

  // ---- What a statement is ----

  /** The raw segments in order. */
  function Pieces(g: Segments): seq<string> {
    match g
    case Last(t) => [t]
    case Then(t, rest) => [t] + Pieces(rest)
  }

  function NonBlank(cs: Chars, l: seq<string>): seq<string> {
    if l == [] then [] else (if Blank(cs, l[0]) then [] else [l[0]]) + NonBlank(cs, l[1..])
  }

  /** `l` are the cores of `pieces`, one by one. */
  ghost predicate Cores(cs: Chars, pieces: seq<string>, l: seq<string>) {
    |l| == |pieces| && forall k | 0 <= k < |l| :: Core(cs, pieces[k], l[k])
  }

  lemma CoresCons(cs: Chars, p: string, pieces: seq<string>, t: string, l: seq<string>)
    requires Core(cs, p, t) && Cores(cs, pieces, l)
    ensures Cores(cs, [p] + pieces, [t] + l)
  {
    hide Core;
  }

  lemma {:induction false} CollectIsCores(cs: Chars, g: Segments)
    ensures Cores(cs, NonBlank(cs, Pieces(g)), Collect(cs, [], g))
    decreases g
  {
    var t := Trim(cs, g.text);
    TrimExactly(cs, g.text, t);
    assert [] + [t] == [t];
    hide Trim, Core;
    match g {
      case Last(p) =>
        assert [p][1..] == [] && NonBlank(cs, []) == [];
      case Then(p, rest) =>
        CollectIsCores(cs, rest);
        assert ([p] + Pieces(rest))[1..] == Pieces(rest);
        if t != "" {
          CollectAfter(cs, [t], rest);
          CoresCons(cs, p, NonBlank(cs, Pieces(rest)), t, Collect(cs, [], rest));
        }
    }
  }

  /** The statements are, in order, the stretches between the top-level semicolons that are not blank,
      each with its outer whitespace gone and all else in place. */
  lemma StatementsAreSegments(cs: Chars, s: string)
    ensures Cores(cs, NonBlank(cs, Pieces(Raw(cs, s))), Split(cs, s))
  {
    CollectIsCores(cs, Raw(cs, s));
  }

  // ---- The manual's reading ----

  /** The elements of a text as the scanner takes them. */
  function Elements(cs: Chars, s: string): seq<string>
    decreases |s|
  {
    if s == "" then [] else [s[..Head(cs, s)]] + Elements(cs, s[Head(cs, s)..])
  }

  /** Whether the text stands inside an identifier after one more character; a dollar may continue an
      identifier but not start one, and neither may a digit. */
  predicate Continues(cs: Chars, digits: set<char>, inside: bool, c: char) {
    if inside then TagChar(cs, c) || c == '$' else TagChar(cs, c) && c !in digits
  }

  /** The scanner opens a quote here and the manual does not: inside an identifier, or with a tag that
      starts with a digit. */
  predicate Departs(cs: Chars, digits: set<char>, inside: bool, s: string) {
    OpenerLen(cs, s) > 0 && (inside || (TagChar(cs, s[1]) && s[1] in digits))
  }

  function ManualHead(cs: Chars, digits: set<char>, inside: bool, s: string): (h: nat)
    requires s != ""
    ensures 0 < h <= |s|
  {
    if Departs(cs, digits, inside, s) then 1 else Head(cs, s)
  }

  function ManualElements(cs: Chars, digits: set<char>, inside: bool, s: string): seq<string>
    decreases |s|
  {
    if s == "" then []
    else
      var h := ManualHead(cs, digits, inside, s);
      [s[..h]] + ManualElements(cs, digits, h == 1 && Continues(cs, digits, inside, s[0]), s[h..])
  }

  /** No element that the scanner takes departs from the manual. */
  predicate NeverDeparts(cs: Chars, digits: set<char>, inside: bool, s: string)
    decreases |s|
  {
    s == ""
    || (&& !Departs(cs, digits, inside, s)
        && var h := Head(cs, s); NeverDeparts(cs, digits, h == 1 && Continues(cs, digits, inside, s[0]), s[h..]))
  }

  lemma SameFirst(a: string, x: seq<string>, b: string, y: seq<string>)
    ensures [a] + x == [b] + y <==> a == b && x == y
  {
    assert ([a] + x)[0] == a && ([a] + x)[1..] == x && ([b] + y)[0] == b && ([b] + y)[1..] == y;
  }

  /** The scanner reads a text as section 4.1.2.4 has it exactly when it never opens a quote inside an
      identifier or with a tag that starts with a digit. */
  lemma {:induction false} ReadsAsTheManualExactly(cs: Chars, digits: set<char>, inside: bool, s: string)
    ensures Elements(cs, s) == ManualElements(cs, digits, inside, s) <==> NeverDeparts(cs, digits, inside, s)
    decreases |s|
  {
    if s != "" {
      var h, m := Head(cs, s), ManualHead(cs, digits, inside, s);
      var next := m == 1 && Continues(cs, digits, inside, s[0]);
      SameFirst(s[..h], Elements(cs, s[h..]), s[..m], ManualElements(cs, digits, next, s[m..]));
      if Departs(cs, digits, inside, s) {
        assert |s[..h]| > |s[..m]|;
      } else {
        ReadsAsTheManualExactly(cs, digits, next, s[h..]);
      }
    }
  }

  /** The segments of a text, from its elements. */
  function Segmented(elements: seq<string>): Segments {
    if elements == [] then Last("")
    else if elements[0] == ";" then Then("", Segmented(elements[1..]))
    else Prepend(elements[0], Segmented(elements[1..]))
  }

  lemma {:induction false} RawIsSegmented(cs: Chars, s: string)
    ensures Raw(cs, s) == Segmented(Elements(cs, s))
    decreases |s|
  {
    if s != "" {
      var h := Head(cs, s);
      RawIsSegmented(cs, s[h..]);
      assert Elements(cs, s)[0] == s[..h] && Elements(cs, s)[1..] == Elements(cs, s[h..]);
      if s[0] == ';' { assert h == 1 && s[..1] == ";"; } else { assert s[..h][0] == s[0]; }
    }
  }

  /** What the manual's reading splits a text into. */
  function ManualSplit(cs: Chars, digits: set<char>, s: string): seq<string> {
    Collect(cs, [], Segmented(ManualElements(cs, digits, false, s)))
  }

  /** On such texts the split is the manual's. */
  lemma SplitsAsTheManual(cs: Chars, digits: set<char>, s: string)
    requires NeverDeparts(cs, digits, false, s)
    ensures Split(cs, s) == ManualSplit(cs, digits, s)
  {
    RawIsSegmented(cs, s);
    ReadsAsTheManualExactly(cs, digits, false, s);
  }

  /** Elsewhere it can differ: after a letter the manual reads both dollars as part of the identifier, so
      the semicolon separates; the scanner takes a quote. */
  lemma DepartureSplitsOtherwise(cs: Chars, digits: set<char>)
    requires 'a' in cs.alnum && 'a' !in digits
    ensures Raw(cs, "a$$;$$") == Last("a$$;$$")
    ensures Segmented(ManualElements(cs, digits, false, "a$$;$$")) == Then("a$$", Last("$$"))
  {
    ScannerReads(cs);
    ManualReads(cs, digits);
    SegmentedThere();
    hide Raw, Segmented, ManualElements;
  }

  lemma ScannerReads(cs: Chars)
    ensures Raw(cs, "a$$;$$") == Last("a$$;$$")
  {
    Openers(cs);
    var s, q: string, end: string := "a$$;$$", "$$;$$", "$$";
    assert q[2..] == ";$$" && ";$$"[1..] == end && end[..2] == end;
    assert Find(end, end) == 0;
    hide OpenerLen, Find, Raw;
    FindLater(";$$", end);
    QuoteHead(cs, q, 2, 1);
    RawElement(cs, q, 5);
    RawElement(cs, s, 1);
    assert s[1..] == q && q[5..] == "" && s[..1] == "a" && q[..5] == q;
    RawNothing(cs);
  }

  lemma FindLater(s: string, t: string)
    requires |s| >= |t| > 0 && s[0] != t[0] && Find(s[1..], t) >= 0
    ensures Find(s, t) == Find(s[1..], t) + 1
  {
  }

  lemma RawNothing(cs: Chars)
    ensures Raw(cs, "") == Last("")
  {
  }

  lemma Openers(cs: Chars)
    ensures OpenerLen(cs, "a$$;$$") == 0 && OpenerLen(cs, "$$;$$") == 2 && OpenerLen(cs, "$;$$") == 0
    ensures OpenerLen(cs, ";$$") == 0 && OpenerLen(cs, "$$") == 2
  {
    assert "$$;$$"[1..] == "$;$$" && "$;$$"[1..] == ";$$" && "$$"[1..] == "$";
  }

  lemma ManualElement(cs: Chars, digits: set<char>, inside: bool, s: string, h: nat, next: bool)
    requires s != "" && h == ManualHead(cs, digits, inside, s)
    requires next == (h == 1 && Continues(cs, digits, inside, s[0]))
    ensures ManualElements(cs, digits, inside, s) == [s[..h]] + ManualElements(cs, digits, next, s[h..])
  {
  }

  lemma ManualReads(cs: Chars, digits: set<char>)
    requires 'a' in cs.alnum && 'a' !in digits
    ensures ManualElements(cs, digits, false, "a$$;$$") == ["a", "$", "$", ";", "$$"]
  {
    Openers(cs);
    assert ManualElements(cs, digits, false, "") == [];
    assert Find("", "$$") == -1 && "$$"[2..] == "" && "$$"[..2] == "$$";
    assert "a$$;$$"[1..] == "$$;$$" && "$$;$$"[1..] == "$;$$" && "$;$$"[1..] == ";$$" && ";$$"[1..] == "$$";
    hide OpenerLen, Find, ManualElements;
    ManualElement(cs, digits, false, "$$", 2, false);
    ManualElement(cs, digits, true, ";$$", 1, false);
    ManualElement(cs, digits, true, "$;$$", 1, true);
    ManualElement(cs, digits, true, "$$;$$", 1, true);
    ManualElement(cs, digits, false, "a$$;$$", 1, true);
    assert "a$$;$$"[..1] == "a" && "$$;$$"[..1] == "$" && "$;$$"[..1] == "$" && ";$$"[..1] == ";";
    assert ["a"] + (["$"] + (["$"] + ([";"] + (["$$"] + [])))) == ["a", "$", "$", ";", "$$"];
  }

  lemma SegmentedThere()
    ensures Segmented(["a", "$", "$", ";", "$$"]) == Then("a$$", Last("$$"))
  {
    var l := ["a", "$", "$", ";", "$$"];
    assert l[1..] == ["$", "$", ";", "$$"] && ["$", "$", ";", "$$"][1..] == ["$", ";", "$$"];
    assert ["$", ";", "$$"][1..] == [";", "$$"] && [";", "$$"][1..] == ["$$"] && ["$$"][1..] == [];
    assert Segmented(["$$"]) == Last("$$");
    assert Segmented(["$", ";", "$$"]) == Then("$", Last("$$"));
    assert Segmented(["$", "$", ";", "$$"]) == Then("$$", Last("$$"));
  }
}
