/** The statement splitter of the baseline migration: a hand-written scanner over positions with a
    quote mode, and its refinement of the reference reading. */
module SqlSplitter {
  import opened Text
  import opened SqlReference

  /** The scanner's variables: statements found, text being collected, quote mode and position. */
  datatype Scan = Scan(done: seq<string>, current: string, inQuote: bool, tag: string, i: nat) {
    predicate Valid(sql: string) { i <= |sql| && (inQuote <==> tag != "") }
  }

  function TagEnd(cs: Chars, sql: string, j: nat): (e: nat)
    requires j <= |sql|
    ensures j <= e <= |sql|
    decreases |sql| - j
  {
    if j < |sql| && TagChar(cs, sql[j]) then TagEnd(cs, sql, j + 1) else j
  }

  function Slice(s: string, i: nat, n: nat): string
    requires i <= |s|
  {
    if i + n <= |s| then s[i..i + n] else s[i..]
  }

  /** One pass through the scanner's loop body. */
  function Step(cs: Chars, sql: string, s: Scan): (s': Scan)
    requires s.Valid(sql) && s.i < |sql|
    ensures s'.Valid(sql) && s.i < s'.i
  {
    var j := if s.inQuote then 0 else TagEnd(cs, sql, s.i + 1);
    if !s.inQuote && sql[s.i] == '$' && j < |sql| && sql[j] == '$' then
      Scan(s.done, s.current + sql[s.i..j + 1], true, sql[s.i..j + 1], j + 1)
    else if s.inQuote && Slice(sql, s.i, |s.tag|) == s.tag then
      Scan(s.done, s.current + s.tag, false, "", s.i + |s.tag|)
    else if !s.inQuote && sql[s.i] == ';' then
      Scan(Emit(cs, s.done, s.current), "", false, "", s.i + 1)
    else
      Scan(s.done, s.current + [sql[s.i]], s.inQuote, s.tag, s.i + 1)
  }

  function Run(cs: Chars, sql: string, s: Scan): seq<string>
    requires s.Valid(sql)
    decreases |sql| - s.i
  {
    if s.i == |sql| then Emit(cs, s.done, s.current) else Run(cs, sql, Step(cs, sql, s))
  }

  /** The inner lookahead loop of `_split_sql`. */
  method SkipTag(cs: Chars, sql: string, start: nat) returns (j: nat)
    requires start <= |sql|
    ensures j == TagEnd(cs, sql, start)
  {
    j := start;
    while j < |sql| && (sql[j] in cs.alnum || sql[j] == '_')
      invariant start <= j <= |sql|
      invariant TagEnd(cs, sql, j) == TagEnd(cs, sql, start)
    {
      j := j + 1;
    }
  }

  /** `_split_sql`: the loops terminate and return what running the scanner returns. */
  method ScanSql(cs: Chars, sql: string) returns (statements: seq<string>)
    ensures statements == Run(cs, sql, Scan([], "", false, "", 0))
  {
    hide Trim;
    statements := [];
    var current := "";
    var inDollarQuote := false;
    var dollarTag := "";
    var i := 0;
    ghost var s := Scan([], "", false, "", 0);
    while i < |sql|
      invariant s == Scan(statements, current, inDollarQuote, dollarTag, i) && s.Valid(sql)
      invariant Run(cs, sql, s) == Run(cs, sql, Scan([], "", false, "", 0))
      decreases |sql| - i
    {
      s := Step(cs, sql, s);
      if !inDollarQuote && sql[i] == '$' {
        var j := SkipTag(cs, sql, i + 1);
        if j < |sql| && sql[j] == '$' {
          var tag := sql[i..j + 1];
          current := current + tag;
          inDollarQuote := true;
          dollarTag := tag;
          i := j + 1;
          continue;
        }
      }
      if inDollarQuote && Slice(sql, i, |dollarTag|) == dollarTag {
        current := current + dollarTag;
        inDollarQuote := false;
        var tagLen := |dollarTag|;
        dollarTag := "";
        i := i + tagLen;
        continue;
      }
      if !inDollarQuote && sql[i] == ';' {
        var stmt := Trim(cs, current);
        if stmt != "" {
          statements := statements + [stmt];
        }
        current := "";
        i := i + 1;
        continue;
      }
      current := current + [sql[i]];
      i := i + 1;
    }
    var stmt := Trim(cs, current);
    if stmt != "" {
      statements := statements + [stmt];
    }
  }

  // ---- The scanner refines the reference reading ----

  /** What is left to split when the scanner stands inside a quote opened by `tag`. */
  ghost function RawInside(cs: Chars, tag: string, s: string): Segments {
    var k := Find(s, tag);
    if k < 0 then Last(s) else Prepend(s[..k + |tag|], Raw(cs, s[k + |tag|..]))
  }

  ghost function Rest(cs: Chars, inQuote: bool, tag: string, s: string): Segments {
    if inQuote then RawInside(cs, tag, s) else Raw(cs, s)
  }

  /** What the scanner will have returned, read off the reference. */
  ghost function Outlook(cs: Chars, sql: string, s: Scan): seq<string>
    requires s.Valid(sql)
  {
    Collect(cs, s.done, Prepend(s.current, Rest(cs, s.inQuote, s.tag, sql[s.i..])))
  }

  lemma OpenStep(cs: Chars, s: string, tag: string, rest: string)
    requires OpenerLen(cs, s) == |tag| > 0 && tag == s[..|tag|] && rest == s[|tag|..]
    ensures Raw(cs, s) == Prepend(tag, RawInside(cs, tag, rest))
  {
    hide Find, OpenerLen, Raw;
    if Find(rest, tag) < 0 {
      UnclosedFirst(cs, s, "");
      Slices(s, |tag|, 0);
    } else {
      OpenClosed(cs, s, tag, rest, Find(rest, tag) + |tag|);
    }
  }

  lemma OpenClosed(cs: Chars, s: string, tag: string, rest: string, m: nat)
    requires OpenerLen(cs, s) == |tag| > 0 && tag == s[..|tag|] && rest == s[|tag|..]
    requires Find(rest, tag) >= 0 && m == Find(rest, tag) + |tag|
    ensures Raw(cs, s) == Prepend(tag, Prepend(rest[..m], Raw(cs, rest[m..])))
  {
    hide Find, OpenerLen, Raw, Prepend;
    Slices(s, |tag|, m);
    RawElement(cs, s, |tag| + m);
    PrependTwice(tag, rest[..m], Raw(cs, rest[m..]));
  }

  lemma InsideMatch(cs: Chars, tag: string, s: string)
    requires Slice(s, 0, |tag|) == tag
    ensures RawInside(cs, tag, s) == Prepend(tag, Raw(cs, s[|tag|..]))
  {
    assert Find(s, tag) == 0;
  }

  lemma FindMiss(s: string, t: string)
    requires s != "" && Slice(s, 0, |t|) != t
    ensures Find(s, t) == if Find(s[1..], t) < 0 then -1 else Find(s[1..], t) + 1
  {
  }

  lemma InsideMiss(cs: Chars, tag: string, s: string, first: string, rest: string)
    requires s != "" && Slice(s, 0, |tag|) != tag && first == s[..1] && rest == s[1..]
    ensures RawInside(cs, tag, s) == Prepend(first, RawInside(cs, tag, rest))
  {
    hide Find, Raw;
    var k := Find(rest, tag);
    FindMiss(s, tag);
    if k < 0 {
      Slices(s, 1, 0);
    } else {
      MissClosed(cs, s, first, rest, k + |tag|);
    }
  }

  lemma MissClosed(cs: Chars, s: string, first: string, rest: string, m: nat)
    requires s != "" && first == s[..1] && rest == s[1..] && m <= |rest|
    ensures Prepend(s[..m + 1], Raw(cs, s[m + 1..])) == Prepend(first, Prepend(rest[..m], Raw(cs, rest[m..])))
  {
    Slices(s, 1, m);
    PrependTwice(first, rest[..m], Raw(cs, rest[m..]));
  }

  lemma {:induction false} TagEndIsRun(cs: Chars, sql: string, j: nat)
    requires j <= |sql|
    ensures TagEnd(cs, sql, j) == j + TagRun(cs, sql[j..])
    decreases |sql| - j
  {
    if j < |sql| && TagChar(cs, sql[j]) {
      Slices(sql, j, 1);
      TagEndIsRun(cs, sql, j + 1);
    }
  }

  lemma OpenerAt(cs: Chars, sql: string, i: nat)
    requires i < |sql| && sql[i] == '$'
    ensures var j := TagEnd(cs, sql, i + 1);
            OpenerLen(cs, sql[i..]) == if j < |sql| && sql[j] == '$' then j + 1 - i else 0
  {
    TagEndIsRun(cs, sql, i + 1);
    Slices(sql, i, 1);
  }

  lemma Windows(sql: string, i: nat, n: nat)
    requires i <= |sql|
    ensures Slice(sql[i..], 0, n) == Slice(sql, i, n)
    ensures i + n <= |sql| ==> sql[i..][..n] == sql[i..i + n] && sql[i..][n..] == sql[i + n..]
    ensures i < |sql| ==> sql[i..i + 1] == [sql[i]]
  {
  }

  /** Moving the lexical piece `p` into `current` leaves the outlook as it was. */
  lemma Take(cs: Chars, sql: string, s: Scan, p: string, s': Scan)
    requires s.Valid(sql) && s'.Valid(sql)
    requires s'.done == s.done && s'.current == s.current + p
    requires Rest(cs, s.inQuote, s.tag, sql[s.i..]) == Prepend(p, Rest(cs, s'.inQuote, s'.tag, sql[s'.i..]))
    ensures Outlook(cs, sql, s) == Outlook(cs, sql, s')
  {
    PrependTwice(s.current, p, Rest(cs, s'.inQuote, s'.tag, sql[s'.i..]));
  }

  lemma StepOutside(cs: Chars, sql: string, s: Scan)
    requires s.Valid(sql) && s.i < |sql| && !s.inQuote
    ensures Outlook(cs, sql, s) == Outlook(cs, sql, Step(cs, sql, s))
  {
    hide Raw, Outlook, OpenerLen;
    var n := OpenerLen(cs, sql[s.i..]);
    if sql[s.i] == '$' { OpenerAt(cs, sql, s.i); }
    if n > 0 {
      StepOpens(cs, sql, s, n, sql[s.i..s.i + n]);
    } else if sql[s.i] == ';' {
      StepSeparates(cs, sql, s);
    } else {
      StepPlain(cs, sql, s);
    }
  }

  lemma StepOpens(cs: Chars, sql: string, s: Scan, n: nat, tag: string)
    requires s.Valid(sql) && s.i < |sql| && !s.inQuote
    requires n == OpenerLen(cs, sql[s.i..]) > 0 && tag == sql[s.i..s.i + n]
    ensures Outlook(cs, sql, s) == Outlook(cs, sql, Scan(s.done, s.current + tag, true, tag, s.i + n))
  {
    hide Find, OpenerLen, Raw, Prepend, Collect, Step, RawInside;
    Windows(sql, s.i, n);
    OpenStep(cs, sql[s.i..], tag, sql[s.i + n..]);
    Take(cs, sql, s, tag, Scan(s.done, s.current + tag, true, tag, s.i + n));
  }

  lemma StepSeparates(cs: Chars, sql: string, s: Scan)
    requires s.Valid(sql) && s.i < |sql| && !s.inQuote && sql[s.i] == ';'
    ensures Outlook(cs, sql, s) == Outlook(cs, sql, Scan(Emit(cs, s.done, s.current), "", false, "", s.i + 1))
  {
    Windows(sql, s.i, 1);
    assert s.current + "" == s.current;
    PrependNothing(Raw(cs, sql[s.i + 1..]));
  }

  lemma StepPlain(cs: Chars, sql: string, s: Scan)
    requires s.Valid(sql) && s.i < |sql| && !s.inQuote && OpenerLen(cs, sql[s.i..]) == 0 && sql[s.i] != ';'
    ensures Outlook(cs, sql, s) == Outlook(cs, sql, Scan(s.done, s.current + [sql[s.i]], false, "", s.i + 1))
  {
    hide Find, Prepend, Collect, Step, RawInside;
    Windows(sql, s.i, 1);
    RawElement(cs, sql[s.i..], 1);
    Take(cs, sql, s, [sql[s.i]], Scan(s.done, s.current + [sql[s.i]], false, "", s.i + 1));
  }

  lemma StepInside(cs: Chars, sql: string, s: Scan)
    requires s.Valid(sql) && s.i < |sql| && s.inQuote
    ensures Outlook(cs, sql, s) == Outlook(cs, sql, Step(cs, sql, s))
  {
    hide Outlook;
    if Slice(sql, s.i, |s.tag|) == s.tag {
      StepCloses(cs, sql, s, |s.tag|);
    } else {
      StepQuoted(cs, sql, s);
    }
  }

  lemma StepCloses(cs: Chars, sql: string, s: Scan, n: nat)
    requires s.Valid(sql) && s.i < |sql| && s.inQuote && n == |s.tag| && Slice(sql, s.i, n) == s.tag
    ensures Outlook(cs, sql, s) == Outlook(cs, sql, Scan(s.done, s.current + s.tag, false, "", s.i + n))
  {
    hide Find, Raw, Prepend, Collect, Step, RawInside;
    Windows(sql, s.i, n);
    InsideMatch(cs, s.tag, sql[s.i..]);
    Take(cs, sql, s, s.tag, Scan(s.done, s.current + s.tag, false, "", s.i + n));
  }

  lemma StepQuoted(cs: Chars, sql: string, s: Scan)
    requires s.Valid(sql) && s.i < |sql| && s.inQuote && Slice(sql, s.i, |s.tag|) != s.tag
    ensures Outlook(cs, sql, s) == Outlook(cs, sql, Scan(s.done, s.current + [sql[s.i]], true, s.tag, s.i + 1))
  {
    hide Find, Raw, Prepend, Collect, Step, RawInside;
    Windows(sql, s.i, |s.tag|);
    Windows(sql, s.i, 1);
    InsideMiss(cs, s.tag, sql[s.i..], [sql[s.i]], sql[s.i + 1..]);
    Take(cs, sql, s, [sql[s.i]], Scan(s.done, s.current + [sql[s.i]], true, s.tag, s.i + 1));
  }

  lemma {:induction false} RunIsOutlook(cs: Chars, sql: string, s: Scan)
    requires s.Valid(sql)
    ensures Run(cs, sql, s) == Outlook(cs, sql, s)
    decreases |sql| - s.i
  {
    if s.i == |sql| {
      assert sql[s.i..] == "";
      assert s.current + "" == s.current;
    } else {
      if s.inQuote { StepInside(cs, sql, s); } else { StepOutside(cs, sql, s); }
      RunIsOutlook(cs, sql, Step(cs, sql, s));
    }
  }

  /** The scanner refines the reference reading: `_split_sql` returns exactly the trimmed,
      non-blank texts between the semicolons that no dollar quote hides. */
  method SplitSql(cs: Chars, sql: string) returns (statements: seq<string>)
    ensures statements == Split(cs, sql)
  {
    statements := ScanSql(cs, sql);
    RunIsOutlook(cs, sql, Scan([], "", false, "", 0));
    assert sql[0..] == sql;
    PrependNothing(Raw(cs, sql));
  }
}
